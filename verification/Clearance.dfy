/** The one-line clearance: a route clipped to what 128 characters leave for it. */
module Clearance {
  import opened Wrappers

  const MAX_ACARS_IN_CHARS := 128

  // ---------------------------------------------------------------- text

  function Join(tokens: seq<string>): string {
    if tokens == [] then ""
    else if |tokens| == 1 then tokens[0]
    else Join(tokens[..|tokens| - 1]) + " " + tokens[|tokens| - 1]
  }

  /** Splitting at every space: never an empty list, and empty tokens are kept. */
  function Split(s: string): (tokens: seq<string>)
    ensures tokens != []
  {
    if s == "" then [""]
    else
      var before := Split(s[..|s| - 1]);
      if s[|s| - 1] == ' ' then before + [""]
      else before[..|before| - 1] + [before[|before| - 1] + [s[|s| - 1]]]
  }

  lemma {:induction false} SplitJoins(s: string)
    ensures Join(Split(s)) == s
  {
    if s == "" {
    } else {
      var init, last := s[..|s| - 1], s[|s| - 1];
      var before := Split(init);
      SplitJoins(init);
      assert s == init + [last];
      if last == ' ' {
        assert (before + [""])[..|before|] == before;
      } else {
        var after := before[..|before| - 1] + [before[|before| - 1] + [last]];
        assert after[..|after| - 1] == before[..|before| - 1];
      }
    }
  }

  function TrimEnd(s: string): (t: string)
    ensures |t| <= |s| && t == s[..|t|]
  {
    if s != "" && s[|s| - 1] == ' ' then TrimEnd(s[..|s| - 1]) else s
  }

  function Upper(c: char): char {
    if 'a' <= c <= 'z' then c - 'a' + 'A' else c
  }

  /** Anything outside printable ASCII becomes a space; runs of spaces become one; none leads. */
  function Collapsed(s: string): string {
    if s == "" then ""
    else
      var before, c := Collapsed(s[..|s| - 1]), if ' ' <= s[|s| - 1] <= '~' then Upper(s[|s| - 1]) else ' ';
      if c == ' ' && (before == "" || before[|before| - 1] == ' ') then before else before + [c]
  }

  function NormaliseRoute(route: Option<string>): Option<string> {
    if route.None? then None
    else
      var cleaned := TrimEnd(Collapsed(route.value));
      if cleaned == "" then None else Some(cleaned)
  }

  /** Words of upper-case printable ASCII with single spaces between them and none around them. */
  predicate IsTidy(s: string) {
    && s != "" && s[0] != ' ' && s[|s| - 1] != ' '
    && (forall i :: 0 <= i < |s| ==> ' ' <= s[i] <= '~' && !('a' <= s[i] <= 'z'))
    && (forall i :: 0 <= i < |s| - 1 ==> !(s[i] == ' ' && s[i + 1] == ' '))
  }

  lemma {:induction false} CollapsedIsTidy(s: string)
    ensures
      var c := Collapsed(s);
      && (forall i :: 0 <= i < |c| ==> ' ' <= c[i] <= '~' && !('a' <= c[i] <= 'z'))
      && (forall i :: 0 <= i < |c| - 1 ==> !(c[i] == ' ' && c[i + 1] == ' '))
      && (c != "" ==> c[0] != ' ')
  {
    if s == "" {
    } else {
      CollapsedIsTidy(s[..|s| - 1]);
    }
  }

  lemma {:induction false} TrimmedEnd(s: string)
    ensures TrimEnd(s) != "" ==> TrimEnd(s)[|TrimEnd(s)| - 1] != ' '
  {
    if s == "" || s[|s| - 1] != ' ' {
    } else {
      TrimmedEnd(s[..|s| - 1]);
    }
  }

  /** Whatever the route, what is clipped is tidy text. */
  lemma NormalisedIsTidy(route: Option<string>)
    ensures NormaliseRoute(route).Some? ==> IsTidy(NormaliseRoute(route).value)
  {
    if route.Some? {
      CollapsedIsTidy(route.value);
      TrimmedEnd(Collapsed(route.value));
    }
  }

  /** Upper-case printable ASCII, and a space for anything else. */
  function Printed(s: string): (t: string)
    ensures |t| == |s|
  {
    seq(|s|, i requires 0 <= i < |s| =>
      if s[i] < ' ' || s[i] > '~' then ' ' else if 'a' <= s[i] <= 'z' then s[i] - 'a' + 'A' else s[i])
  }

  /** Does the text end outside a word? */
  predicate Between(s: string) {
    s == "" || s[|s| - 1] == ' '
  }

  /** What stands between spaces: a letter begins a word outside one, and lengthens the one it is in. */
  function Words(s: string): (ws: seq<string>)
    ensures !Between(s) ==> ws != []
  {
    if s == "" then []
    else
      var init, c := s[..|s| - 1], s[|s| - 1];
      var before := Words(init);
      if c == ' ' then before
      else if Between(init) then before + [[c]]
      else before[..|before| - 1] + [before[|before| - 1] + [c]]
  }

  /** Joined words end in a letter. */
  lemma WordsEndWell(ws: seq<string>)
    requires forall w :: w in ws ==> w != "" && ' ' !in w
    ensures ws == [] ==> Join(ws) == ""
    ensures ws != [] ==> Join(ws) != "" && Join(ws)[|Join(ws)| - 1] != ' '
  {
    if ws != [] {
      var last := ws[|ws| - 1];
      assert last in ws && last[|last| - 1] in last;
      assert Join(ws)[|Join(ws)| - 1] == last[|last| - 1];
    }
  }

  lemma JoinOneMore(ws: seq<string>, more: string)
    ensures Join(ws + [more]) == if ws == [] then more else Join(ws) + " " + more
  {
    assert (ws + [more])[..|ws|] == ws;
  }

  lemma Regroup(a: string, b: string, c: string)
    ensures a + (b + c) == (a + b) + c
  {}

  lemma JoinLonger(ws: seq<string>, more: string)
    requires ws != []
    ensures Join(ws[..|ws| - 1] + [ws[|ws| - 1] + more]) == Join(ws) + more
  {
    var front, last := ws[..|ws| - 1], ws[|ws| - 1];
    JoinOneMore(front, last + more);
    JoinOneMore(front, last);
    assert ws == front + [last];
    Regroup(Join(front) + " ", last, more);
  }

  lemma {:induction false} WordsAreWords(s: string)
    ensures forall w :: w in Words(s) ==> w != "" && ' ' !in w
  {
    if s == "" {
    } else {
      var before, c := Words(s[..|s| - 1]), s[|s| - 1];
      WordsAreWords(s[..|s| - 1]);
      forall w | w in Words(s)
        ensures w != "" && ' ' !in w
      {
        assert before != [] ==> before[|before| - 1] in before;
        assert w in before || w == [c] || (before != [] && w == before[|before| - 1] + [c]);
      }
    }
  }

  /** Text with single spaces so far: the words, and one more space when the text has gone on behind a word. */
  function Spaced(p: string): string {
    if Words(p) != [] && Between(p) then Join(Words(p)) + " " else Join(Words(p))
  }

  lemma SpaceFollows(p: string)
    ensures Spaced(p + " ") ==
      if Spaced(p) == "" || Spaced(p)[|Spaced(p)| - 1] == ' ' then Spaced(p) else Spaced(p) + " "
  {
    assert (p + " ")[..|p|] == p;
    WordsAreWords(p);
    WordsEndWell(Words(p));
  }

  lemma LetterFollows(p: string, c: char)
    requires c != ' '
    ensures Spaced(p + [c]) == Spaced(p) + [c]
  {
    assert (p + [c])[..|p|] == p;
    WordsAreWords(p);
    if Between(p) {
      JoinOneMore(Words(p), [c]);
    } else {
      JoinLonger(Words(p), [c]);
    }
  }

  lemma {:induction false} CollapsedIs(s: string)
    ensures Collapsed(s) == Spaced(Printed(s))
  {
    if s == "" {
    } else {
      var p, c := Printed(s[..|s| - 1]), Printed(s)[|s| - 1];
      CollapsedIs(s[..|s| - 1]);
      assert Printed(s) == p + [c];
      if c == ' ' {
        SpaceFollows(p);
      } else {
        LetterFollows(p, c);
      }
    }
  }

  /** A route normalises to its words in upper case with single spaces between them; without words there is none. */
  lemma NormalisedIsItsWords(route: Option<string>)
    ensures NormaliseRoute(route) ==
      if route.None? || Words(Printed(route.value)) == [] then None else Some(Join(Words(Printed(route.value))))
  {
    if route.Some? {
      var ws := Words(Printed(route.value));
      CollapsedIs(route.value);
      WordsAreWords(Printed(route.value));
      WordsEndWell(ws);
      assert TrimEnd(Join(ws)) == Join(ws);
      assert (Join(ws) + " ")[..|Join(ws)|] == Join(ws);
    }
  }

  // ---------------------------------------------------------------- clipping

  function Suffix(tokens: seq<string>): string
    requires tokens != []
  {
    " .. " + tokens[|tokens| - 1]
  }

  /** The first `k` tokens and the last one, with the gap marked between them. */
  function Clipped(tokens: seq<string>, k: nat): string
    requires 1 <= k < |tokens|
  {
    Join(tokens[..k]) + Suffix(tokens)
  }

  /** Do the first and the last token fit together? */
  predicate EndsFit(tokens: seq<string>, budget: int) {
    |tokens| > 1 && |Suffix(tokens)| + |tokens[0]| <= budget
  }

  /** `k` is the largest number of leading tokens that fit. */
  ghost predicate IsLongestFit(tokens: seq<string>, k: nat, budget: int) {
    && 1 <= k < |tokens|
    && |Clipped(tokens, k)| <= budget
    && forall j :: k < j < |tokens| ==> |Clipped(tokens, j)| > budget
  }

  lemma {:induction false} LongerIsLonger(tokens: seq<string>, j: nat, k: nat)
    requires j <= k <= |tokens|
    ensures |Join(tokens[..j])| <= |Join(tokens[..k])|
  {
    if j == k {
    } else {
      LongerIsLonger(tokens, j, k - 1);
      assert tokens[..k][..k - 1] == tokens[..k - 1];
    }
  }

  /**
   * The whole route when it fits. Otherwise both ends, when they fit together,
   * around the longest fitting run of leading tokens; otherwise a hard clip, or
   * NIL when there is no room for one.
   */
  ghost predicate IsClip(tokens: seq<string>, budget: int, text: string)
    requires tokens != []
  {
    if |Join(tokens)| <= budget then text == Join(tokens)
    else if EndsFit(tokens, budget) then exists k :: IsLongestFit(tokens, k, budget) && text == Clipped(tokens, k)
    else if budget >= 3 then text == TrimEnd(Join(tokens)[..budget - 2]) + ".."
    else text == "NIL"
  }

  method ClipRouteToBudget(tokens: seq<string>, budget: int) returns (text: string)
    requires tokens != []
    ensures IsClip(tokens, budget, text)
    ensures |text| <= budget <==> budget >= 3 || |Join(tokens)| <= budget
  {
    var whole := Join(tokens);
    if |whole| <= budget {
      return whole;
    }
    var suffix := " .. " + tokens[|tokens| - 1];
    if |tokens| > 1 && |suffix| + |tokens[0]| <= budget {
      var out := tokens[0];
      ghost var k := 1;
      assert tokens[..1] == [tokens[0]];
      for i := 1 to |tokens| - 1
        invariant k == i && out == Join(tokens[..k])
        invariant |Clipped(tokens, k)| <= budget
      {
        var next := out + " " + tokens[i];
        assert tokens[..i + 1][..i] == tokens[..i];
        if |next| + |suffix| > budget {
          forall j | k < j < |tokens|
            ensures |Clipped(tokens, j)| > budget
          {
            LongerIsLonger(tokens, i + 1, j);
          }
          break;
        }
        out, k := next, i + 1;
      }
      assert IsLongestFit(tokens, k, budget);
      return out + suffix;
    }
    if budget >= 3 {
      return TrimEnd(whole[..budget - 2]) + "..";
    }
    return "NIL";
  }

  // ---------------------------------------------------------------- the message

  /** The fixed parts around the route; codes, level and squawk are already text. */
  datatype Details = Details(departure: string, destination: string, route: Option<string>, level: string,
                             squawk: string)

  function Head(d: Details): string {
    "PDC " + d.departure + " " + d.destination + " CLRD "
  }

  function Tail(d: Details): string {
    " CLB " + d.level + " SQ " + d.squawk
  }

  function RouteBudget(d: Details): int {
    MAX_ACARS_IN_CHARS - |Head(d)| - |Tail(d)|
  }

  /** NIL for no route and for a budget under five; otherwise the route's words clipped to the budget. */
  ghost predicate IsRouteText(route: Option<string>, budget: int, text: string) {
    if route.None? || route.value == "NIL" || budget < 5 then text == "NIL"
    else IsClip(Split(route.value), budget, text)
  }

  /** At most 128 characters, the fixed parts whole around the clipped route whenever its budget is three or more. */
  method BuildCondensedClearanceMessage(d: Details) returns (message: string, ghost routeText: string)
    ensures |message| <= MAX_ACARS_IN_CHARS
    ensures RouteBudget(d) >= 3 <==>
      message ==
        "PDC " + d.departure + " " + d.destination + " CLRD " + routeText + " CLB " + d.level + " SQ " + d.squawk
    ensures RouteBudget(d) < 3 ==> message == (Head(d) + "NIL" + Tail(d))[..MAX_ACARS_IN_CHARS]
    ensures IsRouteText(NormaliseRoute(d.route), RouteBudget(d), routeText)
  {
    var head, tail := Head(d), Tail(d);
    var budget := MAX_ACARS_IN_CHARS - |head| - |tail|;
    var route := NormaliseRoute(d.route);
    var text;
    if route.None? || route.value == "NIL" {
      text := "NIL";
    } else if budget < 5 {
      text := "NIL";
    } else {
      SplitJoins(route.value);
      text := ClipRouteToBudget(Split(route.value), budget);
    }
    routeText := text;
    message := head + text + tail;
    assert |message| <= MAX_ACARS_IN_CHARS <==> budget >= 3;
    if |message| > MAX_ACARS_IN_CHARS {
      message := message[..MAX_ACARS_IN_CHARS];
      assert |Head(d) + routeText + Tail(d)| > MAX_ACARS_IN_CHARS;
    }
  }
}
