/** The dedup keys of server-generated messages: one text per thing that may be said once. */
module AcarsKeys {

  datatype OooiEvent = OUT | OFF | ON | IN
  datatype CommSide = Inbound | Outbound

  /** What a dedup key stands for. */
  datatype Key =
    | Dispatch(leg: int)
    | LoadsheetRequest(leg: int)
    | LoadsheetReply(leg: int)
    | ClearanceRequest(leg: int)
    | Clearance(leg: int)
    | Oooi(flight: int, event: OooiEvent)
    | PositionReport(flight: int, window: int)
    | Comm(flight: int, comm: int, side: CommSide)

  const DIGITS := "0123456789"

  function Digits(n: nat): string {
    if n < 10 then [DIGITS[n]] else Digits(n / 10) + [DIGITS[n % 10]]
  }

  function Decimal(n: int): string {
    if n < 0 then "-" + Digits(-n) else Digits(n)
  }

  function EventText(event: OooiEvent): string {
    match event
    case OUT => "OUT"
    case OFF => "OFF"
    case ON => "ON"
    case IN => "IN"
  }

  function SideText(side: CommSide): string {
    match side
    case Inbound => "in"
    case Outbound => "out"
  }

  /** The parts of the key, which the builders put between colons. */
  function Fields(k: Key): seq<string> {
    match k
    case Dispatch(leg) => ["dispatch", "leg", Decimal(leg)]
    case LoadsheetRequest(leg) => ["loadsheet-req", "leg", Decimal(leg)]
    case LoadsheetReply(leg) => ["loadsheet", "leg", Decimal(leg)]
    case ClearanceRequest(leg) => ["clearance-req", "leg", Decimal(leg)]
    case Clearance(leg) => ["clearance", "leg", Decimal(leg)]
    case Oooi(flight, event) => ["oooi", "flight", Decimal(flight), EventText(event)]
    case PositionReport(flight, window) => ["position-report", "flight", Decimal(flight), Decimal(window)]
    case Comm(flight, comm, side) => ["sayintentions", "comm", Decimal(flight), Decimal(comm), SideText(side)]
  }

  function Join(fields: seq<string>): string {
    if fields == [] then ""
    else if |fields| == 1 then fields[0]
    else fields[0] + ":" + Join(fields[1..])
  }

  function KeyText(k: Key): string {
    Join(Fields(k))
  }

  lemma JoinTwo(a: string, b: string)
    ensures Join([a, b]) == a + ":" + b
  {
    assert [a, b][1..] == [b];
  }

  lemma JoinThree(a: string, b: string, c: string)
    ensures Join([a, b, c]) == a + ":" + (b + ":" + c)
  {
    assert [a, b, c][1..] == [b, c];
    JoinTwo(b, c);
  }

  lemma JoinFour(a: string, b: string, c: string, d: string)
    ensures Join([a, b, c, d]) == a + ":" + (b + ":" + (c + ":" + d))
  {
    assert [a, b, c, d][1..] == [b, c, d];
    JoinThree(b, c, d);
  }

  /** Keys as they are stored: the purpose, what the message is about, its number, and its event or window. */
  lemma KeysLookLikeThis(id: int, event: OooiEvent, window: int)
    ensures KeyText(Oooi(id, event)) == "oooi" + ":" + ("flight" + ":" + (Decimal(id) + ":" + EventText(event)))
    ensures KeyText(PositionReport(id, window)) ==
      "position-report" + ":" + ("flight" + ":" + (Decimal(id) + ":" + Decimal(window)))
    ensures KeyText(Clearance(id)) == "clearance" + ":" + ("leg" + ":" + Decimal(id))
  {
    JoinFour("oooi", "flight", Decimal(id), EventText(event));
    JoinFour("position-report", "flight", Decimal(id), Decimal(window));
    JoinThree("clearance", "leg", Decimal(id));
  }

  // ---------------------------------------------------------------- injectivity

  predicate NoColon(s: string) {
    forall c :: c in s ==> c != ':'
  }

  lemma DigitsAreDigits(n: nat)
    ensures Digits(n) != [] && forall c :: c in Digits(n) ==> c in DIGITS
  {}

  lemma DigitChars(c: char)
    requires c in DIGITS
    ensures c != ':' && c != '-'
  {}

  lemma SameDigit(m: nat, n: nat)
    requires m < 10 && n < 10 && DIGITS[m] == DIGITS[n]
    ensures m == n
  {}

  lemma {:induction false} DigitsInjective(m: nat, n: nat)
    requires Digits(m) == Digits(n)
    ensures m == n
  {
    if m >= 10 && n >= 10 {
      var a, b := Digits(m / 10), Digits(n / 10);
      assert (a + [DIGITS[m % 10]])[..|a|] == a && (b + [DIGITS[n % 10]])[..|b|] == b;
      assert Digits(m)[|a|] == DIGITS[m % 10] && Digits(n)[|b|] == DIGITS[n % 10];
      DigitsInjective(m / 10, n / 10);
      SameDigit(m % 10, n % 10);
    } else {
      DigitsAreDigits(m / 10);
      DigitsAreDigits(n / 10);
      assert Digits(m)[0] == Digits(n)[0];
      if m < 10 && n < 10 {
        SameDigit(m, n);
      }
    }
  }

  lemma DecimalInjective(m: int, n: int)
    requires Decimal(m) == Decimal(n)
    ensures m == n
  {
    var p, q := if m < 0 then -m else m, if n < 0 then -n else n;
    DigitsAreDigits(p);
    DigitsAreDigits(q);
    DigitChars(Digits(p)[0]);
    DigitChars(Digits(q)[0]);
    assert Decimal(m)[0] == Decimal(n)[0];
    if m < 0 {
      assert Decimal(m)[1..] == Digits(p) && Decimal(n)[1..] == Digits(q);
    }
    DigitsInjective(p, q);
  }

  lemma DecimalHasNoColon(n: int)
    ensures NoColon(Decimal(n))
  {
    var p := if n < 0 then -n else n;
    DigitsAreDigits(p);
    forall c | c in Decimal(n)
      ensures c != ':'
    {
      if c in Digits(p) {
        DigitChars(c);
      }
    }
  }

  lemma FirstField(xs: seq<string>)
    requires xs != [] && NoColon(xs[0])
    ensures xs[0] <= Join(xs)
    ensures forall i :: 0 <= i < |xs[0]| ==> Join(xs)[i] != ':'
    ensures |xs| > 1 ==> |Join(xs)| > |xs[0]| && Join(xs)[|xs[0]|] == ':'
    ensures |xs| == 1 ==> Join(xs) == xs[0]
  {
    forall i | 0 <= i < |xs[0]|
      ensures Join(xs)[i] != ':'
    {
      assert Join(xs)[i] == xs[0][i] && xs[0][i] in xs[0];
    }
  }

  /** Texts joined with colons come apart again, provided none of them holds one. */
  lemma {:induction false} JoinInjective(xs: seq<string>, ys: seq<string>)
    requires xs != [] && ys != []
    requires (forall x :: x in xs ==> NoColon(x)) && (forall y :: y in ys ==> NoColon(y))
    requires Join(xs) == Join(ys)
    ensures xs == ys
    decreases |xs|
  {
    var s := Join(xs);
    FirstField(xs);
    FirstField(ys);
    assert |xs| == 1 <==> ':' !in s;
    assert |ys| == 1 <==> ':' !in s;
    if |xs| == 1 {
      assert xs == [xs[0]] && ys == [ys[0]];
    } else {
      assert s[|xs[0]|] == ':' && s[|ys[0]|] == ':';
      assert s[..|xs[0]|] == xs[0] && s[..|ys[0]|] == ys[0];
      assert |xs[0]| == |ys[0]|;
      assert s[|xs[0]| + 1..] == Join(xs[1..]) && s[|ys[0]| + 1..] == Join(ys[1..]);
      JoinInjective(xs[1..], ys[1..]);
      assert xs == [xs[0]] + xs[1..] && ys == [ys[0]] + ys[1..];
    }
  }

  lemma FieldsHaveNoColon(k: Key)
    ensures forall x :: x in Fields(k) ==> NoColon(x)
  {
    match k
    case Oooi(flight, event) => DecimalHasNoColon(flight);
    case PositionReport(flight, window) =>
      DecimalHasNoColon(flight);
      DecimalHasNoColon(window);
    case Comm(flight, comm, side) =>
      DecimalHasNoColon(flight);
      DecimalHasNoColon(comm);
    case _ => DecimalHasNoColon(k.leg);
  }

  lemma FieldsInjective(j: Key, k: Key)
    requires Fields(j) == Fields(k)
    ensures j == k
  {
    assert Fields(j)[0] == Fields(k)[0] && Fields(j)[2] == Fields(k)[2];
    if j.Oooi? {
      DecimalInjective(j.flight, k.flight);
      assert Fields(j)[3] == Fields(k)[3];
    } else if j.PositionReport? {
      DecimalInjective(j.flight, k.flight);
      assert Fields(j)[3] == Fields(k)[3];
      DecimalInjective(j.window, k.window);
    } else if j.Comm? {
      DecimalInjective(j.flight, k.flight);
      assert Fields(j)[3] == Fields(k)[3] && Fields(j)[4] == Fields(k)[4];
      DecimalInjective(j.comm, k.comm);
    } else {
      DecimalInjective(j.leg, k.leg);
    }
  }

  /** No two of all the things a key can stand for ever share a key. */
  lemma KeysAreInjective(j: Key, k: Key)
    ensures KeyText(j) == KeyText(k) <==> j == k
  {
    if KeyText(j) == KeyText(k) {
      FieldsHaveNoColon(j);
      FieldsHaveNoColon(k);
      JoinInjective(Fields(j), Fields(k));
      FieldsInjective(j, k);
    }
  }
}
