/**
  The roll-command parser of `pkg/droll/droll.go`: `ParseRollTokens` turns a
  command such as `2d6+1d4` into an ordered list of `RollTokens`, or fails
  with a `DRollTokenParsingError` describing the first bad term.
 */
module Droll {
  import opened Results
  import opened GoStrings
  import opened GoStrconv

  /** The die shapes that may be rolled (`validDieSideNums`). */
  const ValidDieSideNums: set<nat> := {4, 6, 8, 10, 12, 20}

  /** `validDieSideNums` as Go's `%v` prints a map: keys in ascending order. */
  const ValidDieSideNumsText: string := "map[4:{} 6:{} 8:{} 10:{} 12:{} 20:{}]"

  /** The text of `ErrInvalidRollToken`. */
  const ErrInvalidRollToken: string := "invalid roll token"

  /** One group of dice of the same shape. */
  datatype RollTokens = RollTokens(num: Uint8, sides: Uint8)

  /** The parser's only error kind; callers tell failures apart by `details` alone. */
  datatype DRollTokenParsingError = DRollTokenParsingError(details: string)
  {
    /** `Error()` reports the sentinel text and ignores `details`. */
    function Error(): (msg: string)
      ensures msg == ErrInvalidRollToken
    {
      ErrInvalidRollToken
    }
  }

  const NoCommandDetails: string := "No command provided."

  function UnrecognizedDetails(token: string): string
  {
    "Command token not recognized as a valid dice roll: " + token + "."
  }

  function NumDetails(text: string): string
  {
    "'" + text + "' is not a valid number of dice. Acceptable values are greater than 0 and less than 256."
  }

  function SidesDetails(text: string): string
  {
    "'" + text + "' is not a valid nor allowable number of sides for dice. Accaptable values include: "
    + ValidDieSideNumsText + "."
  }

  /** `term` is `a`, one `d`, then `b`, with no other `d`. */
  predicate Halves(term: string, a: string, b: string)
  {
    term == a + "d" + b && 'd' !in a && 'd' !in b
  }

  /**
    The reference meaning of a term `<a>d<b>`: the count must be a decimal
    literal of at most 255 (zero included) and the sides a decimal literal
    naming an allowed die; the count is checked first.
   */
  function TermMeaning(a: string, b: string): Result<RollTokens, DRollTokenParsingError>
  {
    if !(IsDecimal(a) && Value(a) <= MaxUint8) then Err(DRollTokenParsingError(NumDetails(a)))
    else if !(IsDecimal(b) && Value(b) in ValidDieSideNums) then Err(DRollTokenParsingError(SidesDetails(b)))
    else Ok(RollTokens(Value(a), Value(b)))
  }

  /** Splitting on `d` yields two pieces exactly when the term is two halves around one `d`. */
  lemma HalvesIffSplit(term: string)
    ensures forall a, b :: Halves(term, a, b) <==> Split(term, 'd') == [a, b]
  {
    forall a, b
      ensures Halves(term, a, b) <==> Split(term, 'd') == [a, b]
    {
      if Halves(term, a, b) {
        SplitAtSeparator(a, 'd', b);
        SplitNoSeparator(b, 'd');
      }
      if Split(term, 'd') == [a, b] {
        assert Join([a, b], 'd') == a + "d" + b;
      }
    }
  }

  /** A term with exactly one `d` has halves. */
  lemma OneSeparatorHasHalves(term: string)
    requires Count(term, 'd') == 1
    ensures exists a, b :: Halves(term, a, b)
  {
    HalvesIffSplit(term);
    var parts := Split(term, 'd');
    assert Halves(term, parts[0], parts[1]);
  }

  /** The body of the loop in `ParseRollTokens`: one term to one `RollTokens`. */
  function ParseToken(token: string): (r: Result<RollTokens, DRollTokenParsingError>)
    ensures Count(token, 'd') != 1 ==> r == Err(DRollTokenParsingError(UnrecognizedDetails(token)))
    ensures r.Ok? ==> Count(token, 'd') == 1 && r.value.sides in ValidDieSideNums
  {
    var tokenSplit := Split(token, 'd');
    if |tokenSplit| != 2 then
      Err(DRollTokenParsingError(UnrecognizedDetails(token)))
    else
      ParseHalves(tokenSplit[0], tokenSplit[1])
  }

  /** The checks on the two halves of a term, in the source's order: count, sides cap, allowed sides. */
  function ParseHalves(a: string, b: string): (r: Result<RollTokens, DRollTokenParsingError>)
    ensures r.Ok? ==> r.value.sides in ValidDieSideNums
  {
    var n := ParseUint8(a);
    if n.Err? || n.value > MaxUint8 then
      Err(DRollTokenParsingError(NumDetails(a)))
    else
      var s := ParseUint8(b);
      if s.Err? || s.value > 20 then
        Err(DRollTokenParsingError(SidesDetails(b)))
      else if s.value !in ValidDieSideNums then
        Err(DRollTokenParsingError(SidesDetails(b)))
      else
        Ok(RollTokens(n.value, s.value))
  }

  /** The source's checks on two halves agree with their reference meaning. */
  lemma HalvesMeaning(a: string, b: string)
    ensures ParseHalves(a, b) == TermMeaning(a, b)
  {
    var n, s := ParseUint8(a), ParseUint8(b);
    if n.Err? {
      assert !(IsDecimal(a) && Value(a) <= MaxUint8);
    } else if s.Err? {
      assert !IsDecimal(b) || Value(b) > MaxUint8;
    } else {
      AllowedAtMostTwenty(s.value);
    }
  }

  /** A term with halves `a` and `b` parses to their reference meaning. */
  lemma ParseTokenMeaning(term: string, a: string, b: string)
    requires Halves(term, a, b)
    ensures ParseToken(term) == TermMeaning(a, b)
  {
    HalvesIffSplit(term);
    assert Split(term, 'd') == [a, b];
    HalvesMeaning(a, b);
  }

  /** Every allowed die has at most 20 sides, so the source's `> 20` test never decides alone. */
  lemma AllowedAtMostTwenty(v: nat)
    ensures v in ValidDieSideNums ==> v <= 20
  {
  }

  /** Term `i` is the first term that fails to parse. */
  predicate FirstBad(terms: seq<string>, i: int)
  {
    && 0 <= i < |terms|
    && ParseToken(terms[i]).Err?
    && forall j :: 0 <= j < i ==> ParseToken(terms[j]).Ok?
  }

  /** The loop over the terms: all-or-nothing, one token per term, in order, failing at the first bad term. */
  function ParseTerms(terms: seq<string>): (r: Result<seq<RollTokens>, DRollTokenParsingError>)
    ensures r.Ok? ==> |r.value| == |terms| && forall i :: 0 <= i < |terms| ==> ParseToken(terms[i]) == Ok(r.value[i])
    ensures r.Err? ==> exists i :: FirstBad(terms, i) && r.error == ParseToken(terms[i]).error
  {
    if |terms| == 0 then Ok([])
    else
      match ParseToken(terms[0])
      case Err(e) =>
        assert FirstBad(terms, 0);
        Err(e)
      case Ok(t) =>
        match ParseTerms(terms[1..])
        case Err(e) =>
          var i :| FirstBad(terms[1..], i) && e == ParseToken(terms[1..][i]).error;
          assert FirstBad(terms, i + 1);
          Err(e)
        case Ok(ts) =>
          Ok([t] + ts)
  }

  /**
    `ParseRollTokens`: the empty command is refused up front; otherwise the
    command's `+`-separated terms each give one `RollTokens`, in order, or the
    whole parse fails with the first bad term's error and no partial list.
   */
  function ParseRollTokens(rollCommandString: string): (r: Result<seq<RollTokens>, DRollTokenParsingError>)
    ensures rollCommandString == "" ==> r == Err(DRollTokenParsingError(NoCommandDetails))
    ensures r.Ok? ==>
      var terms := Split(rollCommandString, '+');
      && rollCommandString != ""
      && |r.value| == |terms|
      && forall i :: 0 <= i < |terms| ==> ParseToken(terms[i]) == Ok(r.value[i])
    ensures rollCommandString != "" && r.Err? ==>
      exists i :: FirstBad(Split(rollCommandString, '+'), i) && r.error == ParseToken(Split(rollCommandString, '+')[i]).error
  {
    if |rollCommandString| == 0 then
      Err(DRollTokenParsingError(NoCommandDetails))
    else
      var terms := Split(rollCommandString, '+');
      ParseTerms(terms)
  }

  /** `a` and `b` are the decimal literals that spell `t`, with an allowed die. */
  predicate Spells(a: string, b: string, t: RollTokens)
  {
    IsDecimal(a) && Value(a) == t.num && IsDecimal(b) && Value(b) == t.sides && t.sides in ValidDieSideNums
  }

  /** `term` is two halves that spell `t`. */
  ghost predicate SpelledBy(term: string, t: RollTokens)
  {
    exists a, b :: Halves(term, a, b) && Spells(a, b, t)
  }

  /**
    Every accepted token is spelled by its own term: a count literal (any
    value up to 255, zero included), one `d`, and the literal of an allowed die.
   */
  lemma {:induction false} ParsedTokensSpelled(s: string, ts: seq<RollTokens>)
    requires ParseRollTokens(s) == Ok(ts)
    ensures forall i :: 0 <= i < |ts| ==> SpelledBy(Split(s, '+')[i], ts[i])
  {
    forall i | 0 <= i < |ts|
      ensures SpelledBy(Split(s, '+')[i], ts[i])
    {
      var terms := Split(s, '+');
      TokenMeaning(terms[i]);
      var a, b :| Halves(terms[i], a, b) && TermMeaning(a, b).Ok?;
      assert TermMeaning(a, b) == Ok(ts[i]);
      assert Halves(Split(s, '+')[i], a, b) && Spells(a, b, ts[i]);
    }
  }

  /**
    A term parses exactly when it is two halves around one `d` whose reference
    meaning is a token; every way of cutting it into halves gives its outcome.
   */
  lemma TokenMeaning(term: string)
    ensures ParseToken(term).Ok? <==> exists a, b :: Halves(term, a, b) && TermMeaning(a, b).Ok?
    ensures forall a, b :: Halves(term, a, b) ==> ParseToken(term) == TermMeaning(a, b)
  {
    forall a, b | Halves(term, a, b)
      ensures ParseToken(term) == TermMeaning(a, b)
    {
      ParseTokenMeaning(term, a, b);
    }
    if ParseToken(term).Ok? {
      OneSeparatorHasHalves(term);
    }
  }

  /** The text a caller would write for `tokens`: `<num>d<sides>` terms joined by `+`. */
  function RenderToken(t: RollTokens): string
  {
    Decimal(t.num) + "d" + Decimal(t.sides)
  }

  function Render(tokens: seq<RollTokens>): string
  {
    Join(seq(|tokens|, i requires 0 <= i < |tokens| => RenderToken(tokens[i])), '+')
  }

  /** Rendering a non-empty list of allowed tokens and parsing it back gives the same list. */
  lemma {:induction false} ParseRender(tokens: seq<RollTokens>)
    requires |tokens| > 0
    requires forall i :: 0 <= i < |tokens| ==> tokens[i].sides in ValidDieSideNums
    ensures ParseRollTokens(Render(tokens)) == Ok(tokens)
  {
    var terms := seq(|tokens|, i requires 0 <= i < |tokens| => RenderToken(tokens[i]));
    forall i | 0 <= i < |tokens|
      ensures '+' !in terms[i]
      ensures ParseToken(terms[i]) == Ok(tokens[i])
    {
      var a, b := Decimal(tokens[i].num), Decimal(tokens[i].sides);
      assert forall k :: 0 <= k < |a| ==> IsDigit(a[k]);
      assert forall k :: 0 <= k < |b| ==> IsDigit(b[k]);
      assert terms[i] == a + "d" + b;
      ParseTokenMeaning(terms[i], a, b);
    }
    SplitJoin(terms, '+');
    var s := Render(tokens);
    assert |terms[0]| > 0;
    assert s != "" by {
      if |terms| == 1 {
      } else {
        assert s == terms[0] + "+" + Join(terms[1..], '+');
      }
    }
    assert forall i :: !FirstBad(terms, i);
    var r := ParseRollTokens(s);
    assert r.value == tokens;
  }

  /** Any term that fails to parse makes the whole command fail. */
  lemma OneBadTermFailsAll(s: string, i: nat)
    requires i < |Split(s, '+')|
    requires ParseToken(Split(s, '+')[i]).Err?
    ensures ParseRollTokens(s).Err?
  {
  }

  /** A count of zero is accepted although the count error's text asks for a value greater than 0. */
  lemma ZeroCountAccepted()
    ensures ParseRollTokens("0d6") == Ok([RollTokens(0, 6)])
  {
    ZeroCountToken();
    SingleTerm("0d6");
  }

  lemma ZeroCountToken()
    ensures ParseToken("0d6") == Ok(RollTokens(0, 6))
  {
    DigitsToken('0', '6');
  }

  /** A command without `+` is a single term: its outcome is that term's outcome. */
  lemma SingleTerm(term: string)
    requires term != "" && Count(term, '+') == 0
    ensures ParseToken(term).Ok? ==> ParseRollTokens(term) == Ok([ParseToken(term).value])
    ensures ParseToken(term).Err? ==> ParseRollTokens(term) == Err(ParseToken(term).error)
  {
    assert Split(term, '+') == [term];
    var r := ParseRollTokens(term);
    assert r.Ok? ==> |r.value| == 1 && ParseToken(term) == Ok(r.value[0]) && r.value == [r.value[0]];
    assert r.Err? ==> FirstBad([term], 0) && r.error == ParseToken(term).error;
  }

  /** A command of two terms that both parse gives their two tokens, in order. */
  lemma TwoTerms(t1: string, t2: string)
    requires '+' !in t1 && '+' !in t2
    requires ParseToken(t1).Ok? && ParseToken(t2).Ok?
    ensures ParseRollTokens(t1 + "+" + t2) == Ok([ParseToken(t1).value, ParseToken(t2).value])
  {
    var s := t1 + "+" + t2;
    SplitAtSeparator(t1, '+', t2);
    SplitNoSeparator(t2, '+');
    var terms := Split(s, '+');
    assert terms == [t1, t2];
    assert forall i :: !FirstBad(terms, i);
    var r := ParseRollTokens(s);
    assert ParseToken(terms[0]) == Ok(r.value[0]) && ParseToken(terms[1]) == Ok(r.value[1]);
    assert r.value == [r.value[0], r.value[1]];
  }

  /** `2d6+1d4` is two six-sided dice then one four-sided die. */
  lemma ExampleTwoGroups()
    ensures ParseRollTokens("2d6+1d4") == Ok([RollTokens(2, 6), RollTokens(1, 4)])
  {
    TwoGroupsTokens();
    assert "2d6+1d4" == "2d6" + "+" + "1d4";
    TwoTerms("2d6", "1d4");
  }

  lemma TwoGroupsTokens()
    ensures ParseToken("2d6") == Ok(RollTokens(2, 6))
    ensures ParseToken("1d4") == Ok(RollTokens(1, 4))
  {
    DigitsToken('2', '6');
    DigitsToken('1', '4');
  }

  /** A term of one digit, `d`, one digit: the count always fits, so only the sides can be refused. */
  lemma DigitsToken(n: char, s: char)
    requires IsDigit(n) && IsDigit(s)
    ensures ParseToken([n, 'd', s]) ==
      if DigitValue(s) in ValidDieSideNums then Ok(RollTokens(DigitValue(n), DigitValue(s)))
      else Err(DRollTokenParsingError(SidesDetails([s])))
  {
    assert [n][..0] == [] && [s][..0] == [];
    assert IsDecimal([n]) && Value([n]) == DigitValue(n);
    assert IsDecimal([s]) && Value([s]) == DigitValue(s);
    assert Halves([n, 'd', s], [n], [s]);
    ParseTokenMeaning([n, 'd', s], [n], [s]);
  }

  /** A command of one digit, `d`, one digit: its single term decides the outcome. */
  lemma DigitsCommand(n: char, s: char)
    requires IsDigit(n) && IsDigit(s)
    ensures ParseRollTokens([n, 'd', s]) ==
      if DigitValue(s) in ValidDieSideNums then Ok([RollTokens(DigitValue(n), DigitValue(s))])
      else Err(DRollTokenParsingError(SidesDetails([s])))
  {
    DigitsToken(n, s);
    assert [s][1..] == [] && ['d', s][1..] == [s] && [n, 'd', s][1..] == ['d', s];
    assert Count([s], '+') == 0;
    assert Count(['d', s], '+') == 0;
    assert Count([n, 'd', s], '+') == 0;
    SingleTerm([n, 'd', s]);
  }

  /** Seven sides parse as a number but are not an allowed die. */
  lemma ExampleDisallowedSides()
    ensures ParseRollTokens("2d7") == Err(DRollTokenParsingError(SidesDetails("7")))
  {
    DigitsCommand('2', '7');
  }

  /** A count above 255 is refused with the count error. */
  lemma ExampleCountTooLarge()
    ensures ParseRollTokens("300d6") == Err(DRollTokenParsingError(NumDetails("300")))
  {
    CountTooLargeToken();
    SingleTerm("300d6");
  }

  lemma CountTooLargeToken()
    ensures ParseToken("300d6") == Err(DRollTokenParsingError(NumDetails("300")))
  {
    ThreeHundred();
    assert Halves("300d6", "300", "6");
    ParseTokenMeaning("300d6", "300", "6");
  }

  lemma ThreeHundred()
    ensures IsDecimal("300") && Value("300") == 300
  {
    assert "300"[..2] == "30" && "30"[..1] == "3" && "3"[..0] == "";
    assert Value("3") == 3;
    assert Value("30") == 30;
  }

  /** A term with two `d`s is not a dice roll. */
  lemma ExampleTwoSeparators()
    ensures ParseRollTokens("1d6d6") == Err(DRollTokenParsingError(UnrecognizedDetails("1d6d6")))
  {
    assert Count("1d6d6", 'd') == 2;
    SingleTerm("1d6d6");
  }
}
