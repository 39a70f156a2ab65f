/** No leg is starved of the gap pass, whatever the clock does and whatever replica each poll sees. */
module DemandRotation {
  import opened Wrappers
  import opened DemandModel

  /** The leg `j` places after `first` in the rotation over `n` legs. */
  function At(first: nat, j: nat, n: nat): nat
    requires first < n && j <= n
  {
    if first + j < n then first + j else first + j - n
  }

  lemma MoreTimes(k: nat, m: nat, n: nat)
    requires k <= m
    ensures k * n <= m * n
  {}

  /** Below twice the divisor the quotient is zero or one. */
  lemma AtIsMod(first: nat, j: nat, n: nat)
    requires first < n && j <= n
    ensures (first + j) % n == At(first, j, n)
  {
    var a := first + j;
    var d := a / n;
    assert a == d * n + a % n;
    if d >= 2 {
      MoreTimes(2, d, n);
    }
  }

  lemma FirstWraps(next: nat, n: nat)
    requires next <= n && n > 0
    ensures First(next, n) == if next < n then next else 0
  {}

  lemma TurnAt(l: Lookups, t: Contents, legs: seq<Leg>, offset: nat, j: nat)
    requires j < |legs|
    ensures
      var index := At(First(offset, |legs|), j, |legs|);
      Turns(l, t, legs, offset)[j] == Turn(index, Pairs(l, t, legs[index]))
  {
    AtIsMod(First(offset, |legs|), j, |legs|);
  }

  // ---------------------------------------------------------------- one pass

  /** Unless it is stopped a leg's pass looks at every pair, and only a later question can find no time. */
  lemma {:induction false} PairsAsked(x: Ctx, c: Collected, pairs: seq<Pair>, asked: nat, looked: nat)
    ensures
      var leg := GapWants(x, c, pairs, asked, looked);
      && leg.asked >= asked && leg.pairs >= looked
      && (leg.outcome.Done? ==> leg.pairs == looked + |pairs| && leg.asked == asked + |pairs|)
      && (leg.outcome.Budget? && leg.pairs == looked ==> asked > 0)
    decreases |pairs|
  {
    if pairs == [] || OutOfTime(x.clock, asked) {
    } else {
      var next := LookAt(x, c, pairs[0]);
      if Enough(next) {
        assert GapWants(x, c, pairs, asked, looked) == LegPass(next, asked + 1, looked + 1, Capped);
      } else {
        PairsAsked(x, next, pairs[1..], asked + 1, looked + 1);
        assert GapWants(x, c, pairs, asked, looked) == GapWants(x, next, pairs[1..], asked + 1, looked + 1);
      }
    }
  }

  /** How many legs of the rotation a pass got through, counting one it was cut short in. */
  function Through(x: Ctx, c: Collected, turns: seq<Turn>, asked: nat): nat
    decreases |turns|
  {
    if turns == [] || Enough(c) then 0
    else
      var leg := GapWants(x, c, turns[0].pairs, asked, 0);
      if leg.outcome.Done? then 1 + Through(x, leg.c, turns[1..], leg.asked)
      else if leg.pairs > 0 then 1 else 0
  }

  /** A pass cut short got through at least one leg, and one that was not got through all. */
  lemma {:induction false} PassMovesOn(x: Ctx, c: Collected, turns: seq<Turn>, asked: nat, offset: nat)
    ensures
      var p, m := GapPass(x, c, turns, asked, offset), Through(x, c, turns, asked);
      && m <= |turns|
      && (p.outcome.Done? ==> m == |turns|)
      && (p.outcome.Budget? && asked == 0 ==> m > 0)
    decreases |turns|
  {
    if turns == [] || Enough(c) {
    } else {
      var leg := GapWants(x, c, turns[0].pairs, asked, 0);
      PairsAsked(x, c, turns[0].pairs, asked, 0);
      if leg.outcome.Done? {
        PassMovesOn(x, leg.c, turns[1..], leg.asked, offset);
      }
    }
  }

  /** The next pass starts at the leg the one cut short did not get to, or right after the one it was cut short in. */
  lemma {:induction false} NextStartsWhereItEnded(x: Ctx, c: Collected, turns: seq<Turn>, asked: nat, offset: nat)
    requires GapPass(x, c, turns, asked, offset).outcome.Budget?
    ensures
      var p, m := GapPass(x, c, turns, asked, offset), Through(x, c, turns, asked);
      (m < |turns| && p.next == turns[m].index) || (0 < m <= |turns| && p.next == turns[m - 1].index + 1)
    decreases |turns|
  {
    if turns == [] || Enough(c) {
    } else {
      var leg := GapWants(x, c, turns[0].pairs, asked, 0);
      PairsAsked(x, c, turns[0].pairs, asked, 0);
      if leg.outcome.Done? {
        NextStartsWhereItEnded(x, leg.c, turns[1..], leg.asked, offset);
      }
    }
  }

  /** A pass that is not capped looks at a pair of every leg it got through that has one. */
  lemma {:induction false} PassExamines(x: Ctx, c: Collected, turns: seq<Turn>, asked: nat, offset: nat, j: nat)
    requires !GapPass(x, c, turns, asked, offset).outcome.Capped?
    requires j < Through(x, c, turns, asked) && j < |turns| && turns[j].pairs != []
    ensures turns[j].index in GapPass(x, c, turns, asked, offset).examined
    decreases |turns|
  {
    if turns == [] || Enough(c) {
    } else {
      var leg := GapWants(x, c, turns[0].pairs, asked, 0);
      PairsAsked(x, c, turns[0].pairs, asked, 0);
      if leg.outcome.Done? && j > 0 {
        PassExamines(x, leg.c, turns[1..], leg.asked, offset, j - 1);
      }
    }
  }

  // ---------------------------------------------------------------- many polls

  /** The gap pass of one poll: its replica, clock and filter, and what the poll had collected before it. */
  datatype GapPoll = GapPoll(x: Ctx, c: Collected)

  function PassOf(g: GapPoll, legs: seq<Leg>, offset: nat): Pass {
    FullPass(g.x, g.c, legs, offset)
  }

  predicate NeverCapped(polls: seq<GapPoll>, legs: seq<Leg>, offset: nat)
    decreases |polls|
  {
    polls == [] ||
    (!PassOf(polls[0], legs, offset).outcome.Capped?
     && NeverCapped(polls[1..], legs, PassOf(polls[0], legs, offset).next))
  }

  /** The legs of which some poll looked at a pair. */
  function Examined(polls: seq<GapPoll>, legs: seq<Leg>, offset: nat): set<int>
    decreases |polls|
  {
    if polls == [] then {}
    else PassOf(polls[0], legs, offset).examined + Examined(polls[1..], legs, PassOf(polls[0], legs, offset).next)
  }

  ghost predicate AlwaysHasPair(polls: seq<GapPoll>, leg: Leg) {
    forall g :: g in polls ==> Pairs(g.x.lookups, g.x.t, leg) != []
  }

  /** One poll either looks at the leg `j` places on, or leaves it fewer places on for the next poll. */
  lemma OnePoll(g: GapPoll, legs: seq<Leg>, offset: nat, j: nat)
    requires j < |legs| && !PassOf(g, legs, offset).outcome.Capped?
    requires Pairs(g.x.lookups, g.x.t, legs[At(First(offset, |legs|), j, |legs|)]) != []
    ensures
      var p, i := PassOf(g, legs, offset), At(First(offset, |legs|), j, |legs|);
      i in p.examined || exists k :: 0 <= k < j && At(First(p.next, |legs|), k, |legs|) == i
  {
    var l, t, n := g.x.lookups, g.x.t, |legs|;
    var first, turns := First(offset, n), Turns(l, t, legs, offset);
    var p, m := PassOf(g, legs, offset), Through(g.x, g.c, turns, 0);
    PassMovesOn(g.x, g.c, turns, 0, offset);
    TurnAt(l, t, legs, offset, j);
    if j < m {
      PassExamines(g.x, g.c, turns, 0, offset, j);
    } else {
      NextStartsWhereItEnded(g.x, g.c, turns, 0, offset);
      TurnAt(l, t, legs, offset, m);
      TurnAt(l, t, legs, offset, m - 1);
      FirstWraps(p.next, n);
      assert At(First(p.next, n), j - m, n) == At(first, j, n);
    }
  }

  lemma {:induction false} TurnComes(polls: seq<GapPoll>, legs: seq<Leg>, offset: nat, j: nat)
    requires j < |polls| && j < |legs|
    requires NeverCapped(polls, legs, offset)
    requires AlwaysHasPair(polls, legs[At(First(offset, |legs|), j, |legs|)])
    ensures At(First(offset, |legs|), j, |legs|) in Examined(polls, legs, offset)
    decreases |polls|
  {
    var p, i := PassOf(polls[0], legs, offset), At(First(offset, |legs|), j, |legs|);
    assert polls[0] in polls;
    OnePoll(polls[0], legs, offset, j);
    if i in p.examined {
    } else {
      var k :| 0 <= k < j && At(First(p.next, |legs|), k, |legs|) == i;
      TurnComes(polls[1..], legs, p.next, k);
    }
  }

  /** Any `|legs|` polls in a row over unchanged legs give every leg with airway pairs its turn. */
  lemma EveryLegGetsATurn(polls: seq<GapPoll>, legs: seq<Leg>, offset: nat, i: nat)
    requires i < |legs| && |polls| >= |legs|
    requires NeverCapped(polls, legs, offset)
    requires AlwaysHasPair(polls, legs[i])
    ensures i in Examined(polls, legs, offset)
  {
    var home := First(offset, |legs|);
    TurnComes(polls, legs, offset, if i >= home then i - home else i + |legs| - home);
  }

  // ---------------------------------------------------------------- an instance

  function Fix(ident: string): PlannedWaypoint {
    PlannedWaypoint(ident, None, "WAYPOINT", Some("UN1"), Position(1.0, 1.0))
  }

  function OneAirway(): Leg {
    Leg("", false, Position(1.0, 1.0), "", false, [], [Fix("A"), Fix("B")], [])
  }

  /** Every fix resolves to itself and every airway is connected. */
  function AllConnected(): Lookups {
    Lookups(s => s, (t, airway, from, target) => Walk([], true),
            (t: Contents, wp: PlannedWaypoint, near: Position) => Some(End(wp.ident, wp.at)),
            (leg, wp, prevIsAirport, hasPrevious) => true, (a, b) => 0.0)
  }

  function Quiet(): GapPoll {
    GapPoll(Ctx(AllConnected(), Contents({}, {}, {}, {}, {}, 0), Filter(None, None), n => 0), NOTHING)
  }

  /** A leg with an airway pair, and a poll that looks at it. */
  lemma ATurnComes()
    ensures NeverCapped([Quiet()], [OneAirway()], 0)
    ensures AlwaysHasPair([Quiet()], OneAirway())
    ensures Examined([Quiet()], [OneAirway()], 0) == {0}
  {
    var x, l, leg := Quiet().x, AllConnected(), OneAirway();
    var a, b := leg.waypoints[0], leg.waypoints[1];
    assert leg.waypoints[1..] == [b] && [b][1..] == [];
    var pair := Pair("UN1", End("A", a.at), End("B", b.at));
    assert "A"[0] != "B"[0];
    var second := Advance(l, x.t, Start(leg), a);
    assert PairsFrom(l, x.t, leg, second, [b]) == [pair] + PairsFrom(l, x.t, leg, Advance(l, x.t, second, b), []);
    assert Pairs(l, x.t, leg) == [pair];
    assert [pair][1..] == [];
    assert GapWants(x, NOTHING, [pair], 0, 0) == LegPass(NOTHING, 1, 1, Done);
    var turns := Turns(l, x.t, [leg], 0);
    assert turns == [Turn(0, [pair])] && turns[1..] == [];
    assert GapPass(x, NOTHING, turns, 0, 0) == Pass(NOTHING, 0, Done, {0});
    assert [Quiet()][1..] == [];
  }
}
