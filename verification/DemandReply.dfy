/** The reply the sidecar gets, and what becomes of the requests: the promises of a poll, told of what is sent. */
module DemandReply {
  import opened Wrappers
  import opened DemandModel
  import opened DemandAnswer
  import opened DemandPromises
  import opened DemandSources
  import opened DemandBuilder

  lemma {:induction false} SplitByKind(wants: seq<Want>)
    ensures |AirportsOf(wants)| + |WaypointsOf(wants)| == |wants|
    ensures forall ident :: ident in AirportsOf(wants) <==> exists w :: w in wants && w.kind.A? && w.ident == ident
    ensures forall w :: w in WaypointsOf(wants) <==> w in wants && !w.kind.A?
    decreases |wants|
  {
    if wants == [] {
    } else {
      var last := wants[|wants| - 1];
      SplitByKind(wants[..|wants| - 1]);
      assert wants == wants[..|wants| - 1] + [last];
    }
  }

  /** The reply sends every want of the answer, airports by ident and the rest as they are, and repeats its terms. */
  lemma ReplyTells(a: Answer, now: int)
    ensures
      var reply := ResponseOf(a, now);
      && |reply.airports| + |reply.waypoints| == |a.wants|
      && (forall ident :: ident in reply.airports <==> exists w :: w in a.wants && w.kind.A? && w.ident == ident)
      && (forall w :: w in reply.waypoints <==> w in a.wants && !w.kind.A?)
      && reply.more == a.more && reply.cap == 50 && reply.generatedAt == now
  {
    SplitByKind(a.wants);
  }

  lemma NamedAirportHasNoRegion(p: Poll, w: Want)
    requires Named(p, w) && w.kind.A?
    ensures w.region.None?
  {}

  lemma SameAirport(v: Want, w: Want)
    requires v.kind.A? && w.kind.A? && v.region.None? && w.region.None? && Key(v) == Key(w)
    ensures v.ident == w.ident
  {
    assert Key(v) == "A|" + v.ident + "|" && Key(w) == "A|" + w.ident + "|";
    assert Key(v)[2..|Key(v)| - 1] == v.ident && Key(w)[2..|Key(w)| - 1] == w.ident;
  }

  /**
   * When the reply says there is no more, the airports and fixes that requests
   * and scanned legs name are sent, all but the parked and the held ones; and
   * whatever the reply sends is one of them or a fix of a broken airway.
   */
  lemma ReplyHasWhatIsNamed(p: Poll, offset: nat, now: int, w: Want)
    requires !ResponseOf(AnswerOf(Gathered(p, offset).c), now).more && Named(p, w) && IsOpen(p.filter, w)
    ensures
      var reply := ResponseOf(AnswerOf(Gathered(p, offset).c), now);
      if w.kind.A? then w.ident in reply.airports
      else exists v :: v in reply.waypoints && Key(v) == Key(w) && v.kind == w.kind
  {
    var a := AnswerOf(Gathered(p, offset).c);
    ReplyTells(a, now);
    WhatIsNamedIsAnswered(p, offset, w);
    var v :| v in a.wants && Key(v) == Key(w) && v.kind == w.kind;
    if w.kind.A? {
      NothingElseIsAsked(p, offset, v);
      NamedAirportHasNoRegion(p, v);
      NamedAirportHasNoRegion(p, w);
      SameAirport(v, w);
    }
  }

  lemma ReplyHasNothingElse(p: Poll, offset: nat, now: int)
    ensures
      var reply := ResponseOf(AnswerOf(Gathered(p, offset).c), now);
      && (forall ident :: ident in reply.airports ==>
            exists w: Want :: w.kind.A? && w.ident == ident && Named(p, w) && IsOpen(p.filter, w))
      && (forall w :: w in reply.waypoints ==> !w.kind.A? && (Named(p, w) || IsGapFix(p, w)) && IsOpen(p.filter, w))
  {
    var a := AnswerOf(Gathered(p, offset).c);
    ReplyTells(a, now);
    forall w | w in a.wants
      ensures (Named(p, w) || IsGapFix(p, w)) && IsOpen(p.filter, w)
    {
      NothingElseIsAsked(p, offset, w);
    }
  }

  // ---------------------------------------------------------------- the requests

  /** A request lives until the time it expires at. */
  lemma {:induction false} LiveExactly(requests: seq<Request>, now: int)
    ensures forall r :: r in Live(requests, now) <==> r in requests && now < r.expiresAt
    decreases |requests|
  {
    if requests == [] {
    } else {
      LiveExactly(requests[..|requests| - 1], now);
      assert requests == requests[..|requests| - 1] + [requests[|requests| - 1]];
    }
  }

  /** A request stays unless what it names is held and not parked. */
  lemma {:induction false} StaysExactly(l: Lookups, f: Filter, requests: seq<Request>, r: Request, w: Want)
    requires RequestNames(l, r, w)
    ensures r in DemandBuilder.Unanswered(l, f, requests) <==>
      && r in requests
      && !(&& (f.skip.Some? ==> w.ident !in (if r.isAirport then f.skip.value.airports else f.skip.value.waypoints))
           && f.replica.Some? && Holds(f.replica.value, w))
    decreases |requests|
  {
    AnsweredExactlyWhen(l, f, r, w);
    if requests == [] {
    } else {
      StaysExactly(l, f, requests[..|requests| - 1], r, w);
      assert requests == requests[..|requests| - 1] + [requests[|requests| - 1]];
    }
  }
}
