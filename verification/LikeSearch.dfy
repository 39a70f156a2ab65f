/**
 * The flight search: tokens become LIKE patterns with their wildcards escaped.
 * LIKE follows section 8.5 of ISO/IEC 9075-2, with SQLite's folding of ASCII
 * letters.
 */
module LikeSearch {
  import opened Wrappers

  function Fold(c: char): char {
    if 'A' <= c <= 'Z' then c - 'A' + 'a' else c
  }

  /** The capital letters become the small ones in their order, and every other character is its own. */
  lemma FoldIs(c: char, n: nat)
    requires n < 26
    ensures c == "ABCDEFGHIJKLMNOPQRSTUVWXYZ"[n] ==> Fold(c) == "abcdefghijklmnopqrstuvwxyz"[n]
    ensures c !in "ABCDEFGHIJKLMNOPQRSTUVWXYZ" ==> Fold(c) == c
  {
    if 'A' <= c <= 'Z' {
      assert c == "ABCDEFGHIJKLMNOPQRSTUVWXYZ"[c as int - 'A' as int];
    }
  }

  function Folded(s: string): string {
    seq(|s|, i requires 0 <= i < |s| => Fold(s[i]))
  }

  const ESCAPE := '\\'

  /** Does `text` match `pattern`, with the backslash as escape character? */
  predicate Like(pattern: string, text: string)
    decreases |pattern| + |text|
  {
    if pattern == "" then text == ""
    else if pattern[0] == '%' then Like(pattern[1..], text) || (text != "" && Like(pattern, text[1..]))
    else if pattern[0] == '_' then text != "" && Like(pattern[1..], text[1..])
    else if pattern[0] == ESCAPE then
      |pattern| >= 2 && text != "" && Fold(pattern[1]) == Fold(text[0]) && Like(pattern[2..], text[1..])
    else text != "" && Fold(pattern[0]) == Fold(text[0]) && Like(pattern[1..], text[1..])
  }

  predicate IsSpecial(c: char) {
    c == ESCAPE || c == '%' || c == '_'
  }

  function EscapeLikeTerm(term: string): string {
    if term == "" then ""
    else (if IsSpecial(term[0]) then [ESCAPE, term[0]] else [term[0]]) + EscapeLikeTerm(term[1..])
  }

  // ---------------------------------------------------------------- what an escaped pattern means

  lemma {:induction false} AnythingGoes(text: string)
    ensures Like("%", text)
    decreases |text|
  {
    if text == "" {
    } else {
      AnythingGoes(text[1..]);
    }
  }

  ghost predicate StartsWith(text: string, word: string) {
    |word| <= |text| && Folded(text[..|word|]) == Folded(word)
  }

  lemma StartsWithStep(text: string, word: string)
    requires word != "" && text != ""
    ensures StartsWith(text, word) <==> Fold(text[0]) == Fold(word[0]) && StartsWith(text[1..], word[1..])
  {
    var n := |word|;
    if StartsWith(text, word) {
      forall i | 0 <= i < n - 1
        ensures Folded(text[1..][..n - 1])[i] == Folded(word[1..])[i]
      {
        assert Folded(text[..n])[i + 1] == Folded(word)[i + 1];
      }
      assert Folded(text[..n])[0] == Folded(word)[0];
    }
    if Fold(text[0]) == Fold(word[0]) && StartsWith(text[1..], word[1..]) {
      forall i | 0 <= i < n
        ensures Folded(text[..n])[i] == Folded(word)[i]
      {
        assert i > 0 ==> Folded(text[1..][..n - 1])[i - 1] == Folded(word[1..])[i - 1];
      }
    }
  }

  lemma {:induction false} EscapedIsPrefix(word: string, text: string)
    ensures Like(EscapeLikeTerm(word) + "%", text) <==> StartsWith(text, word)
    decreases |word|
  {
    var pattern := EscapeLikeTerm(word) + "%";
    if word == "" {
      assert pattern == "%";
      AnythingGoes(text);
    } else if text == "" {
    } else {
      var rest := EscapeLikeTerm(word[1..]) + "%";
      EscapedIsPrefix(word[1..], text[1..]);
      StartsWithStep(text, word);
      if IsSpecial(word[0]) {
        assert pattern == [ESCAPE, word[0]] + rest;
        assert pattern[2..] == rest;
      } else {
        assert pattern == [word[0]] + rest;
        assert pattern[1..] == rest;
      }
    }
  }

  lemma {:induction false} LeadingPercent(pattern: string, text: string)
    ensures Like("%" + pattern, text) <==> exists i :: 0 <= i <= |text| && Like(pattern, text[i..])
    decreases |text|
  {
    assert ("%" + pattern)[1..] == pattern;
    assert text[0..] == text;
    if text == "" {
    } else {
      LeadingPercent(pattern, text[1..]);
      forall i | 0 <= i < |text|
        ensures text[1..][i..] == text[i + 1..]
      {}
      if i :| 0 <= i <= |text| && Like(pattern, text[i..]) {
        assert i > 0 ==> text[1..][i - 1..] == text[i..];
      }
    }
  }

  /** Does `word` occur in `text`, letter case aside? */
  ghost predicate Contains(text: string, word: string) {
    exists i :: 0 <= i <= |text| && StartsWith(text[i..], word)
  }

  function Pattern(param: string): string {
    "%" + (param + "%")
  }

  lemma FoldTwice(word: string)
    ensures Folded(Folded(word)) == Folded(word)
  {}

  /** A lower-cased, escaped token matches exactly where it occurs literally. */
  lemma PatternMeansContains(token: string, text: string)
    ensures Like(Pattern(EscapeLikeTerm(Folded(token))), text) <==> Contains(text, token)
  {
    var word := Folded(token);
    LeadingPercent(EscapeLikeTerm(word) + "%", text);
    forall i | 0 <= i <= |text|
      ensures Like(EscapeLikeTerm(word) + "%", text[i..]) <==> StartsWith(text[i..], token)
    {
      EscapedIsPrefix(word, text[i..]);
      FoldTwice(token);
    }
  }

  // ---------------------------------------------------------------- the WHERE clause

  /** The searched columns of a flight row, in the order of the clause. */
  datatype Row = Row(
    notes: Option<string>, departureIcao: Option<string>, arrivalIcao: Option<string>,
    departureName: Option<string>, arrivalName: Option<string>, aircraft: Option<string>)

  const SEARCH_COLUMNS := 6

  /** COALESCE(column, '') */
  function Cell(row: Row, column: nat): string
    requires column < SEARCH_COLUMNS
  {
    match column
    case 0 => row.notes.GetOr("")
    case 1 => row.departureIcao.GetOr("")
    case 2 => row.arrivalIcao.GetOr("")
    case 3 => row.departureName.GetOr("")
    case 4 => row.arrivalName.GetOr("")
    case _ => row.aircraft.GetOr("")
  }

  /** The parameter bound to a placeholder. */
  function Param(params: seq<string>, condition: nat, column: nat): string
    requires column < SEARCH_COLUMNS && condition * SEARCH_COLUMNS + column < |params|
  {
    params[condition * SEARCH_COLUMNS + column]
  }

  ghost predicate ConditionHolds(params: seq<string>, i: nat, row: Row)
    requires (i + 1) * SEARCH_COLUMNS <= |params|
  {
    exists column :: 0 <= column < SEARCH_COLUMNS && Like(Pattern(Param(params, i, column)), Cell(row, column))
  }

  /** The clause: so many conditions of one placeholder per column, bound to the parameters in order. */
  ghost predicate Accepts(conditions: nat, params: seq<string>, row: Row)
    requires |params| == conditions * SEARCH_COLUMNS
  {
    forall i :: 0 <= i < conditions ==> ConditionHolds(params, i, row)
  }

  ghost predicate Mentions(row: Row, token: string) {
    exists column :: 0 <= column < SEARCH_COLUMNS && Contains(Cell(row, column), token)
  }

  lemma ClauseMeaning(tokens: seq<string>, params: seq<string>, row: Row)
    requires |params| == |tokens| * SEARCH_COLUMNS
    requires forall i, column :: 0 <= i < |tokens| && 0 <= column < SEARCH_COLUMNS ==>
      Param(params, i, column) == EscapeLikeTerm(Folded(tokens[i]))
    ensures Accepts(|tokens|, params, row) <==> forall t :: t in tokens ==> Mentions(row, t)
  {
    forall i | 0 <= i < |tokens|
      ensures ConditionHolds(params, i, row) <==> Mentions(row, tokens[i])
    {
      forall column | 0 <= column < SEARCH_COLUMNS
        ensures Like(Pattern(Param(params, i, column)), Cell(row, column)) <==> Contains(Cell(row, column), tokens[i])
      {
        PatternMeansContains(tokens[i], Cell(row, column));
      }
    }
  }

  /** A row is found exactly when each token occurs in at least one of its columns. */
  method BuildSearchWhere(tokens: seq<string>) returns (conditions: nat, params: seq<string>)
    ensures |params| == conditions * SEARCH_COLUMNS
    ensures conditions == 0 <==> tokens == []
    ensures forall row :: Accepts(conditions, params, row) <==> forall t :: t in tokens ==> Mentions(row, t)
  {
    conditions, params := 0, [];
    for n := 0 to |tokens|
      invariant conditions == n && |params| == n * SEARCH_COLUMNS
      invariant forall i, column :: 0 <= i < n && 0 <= column < SEARCH_COLUMNS ==>
        Param(params, i, column) == EscapeLikeTerm(Folded(tokens[i]))
    {
      var escaped := EscapeLikeTerm(Folded(tokens[n]));
      conditions := conditions + 1;
      ghost var bound := params;
      for k := 0 to SEARCH_COLUMNS
        invariant |params| == n * SEARCH_COLUMNS + k && bound <= params
        invariant forall j :: |bound| <= j < |params| ==> params[j] == escaped
      {
        params := params + [escaped];
      }
      assert forall i, column :: 0 <= i < n && 0 <= column < SEARCH_COLUMNS ==>
        Param(params, i, column) == Param(bound, i, column);
    }
    forall row
      ensures Accepts(conditions, params, row) <==> forall t :: t in tokens ==> Mentions(row, t)
    {
      ClauseMeaning(tokens, params, row);
    }
  }
}
