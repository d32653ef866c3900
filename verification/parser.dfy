/**
  The other revision of the roll-command parser, `pkg/droll/parser.go`:
  `ParseRollCommand` has no up-front empty-input check and tests the die
  shape by a linear scan of a slice instead of a map lookup. It lives in the
  same Go package as `droll.go` and shares its error texts, except the one
  that prints the allowed shapes.
 */
module Parser {
  import opened Results
  import opened GoStrings
  import opened GoStrconv
  import Droll

  /** `valid_die_side_nums`, in the order the scan visits it. */
  const ValidDieSideNumsList: seq<nat> := [4, 6, 8, 10, 12, 20]

  /** `valid_die_side_nums` as Go's `%v` prints a slice. */
  const ValidDieSideNumsListText: string := "[4 6 8 10 12 20]"

  /** The text of `ErrInvalidRollCommandToken`. */
  const ErrInvalidRollCommandToken: string := "invalid roll command token"

  /** One group of dice of the same shape. */
  datatype RollCommand = RollCommand(num: Uint8, sides: Uint8)

  /** The parser's only error kind; callers tell failures apart by `details` alone. */
  datatype TokenParsingError = TokenParsingError(details: string)
  {
    /** `Error()` reports the sentinel text and ignores `details`. */
    function Error(): (msg: string)
      ensures msg == ErrInvalidRollCommandToken
    {
      ErrInvalidRollCommandToken
    }
  }

  function SidesDetails(text: string): string
  {
    "'" + text + "' is not a valid nor allowable number of sides for dice. Accaptable values include: "
    + ValidDieSideNumsListText + "."
  }

  /**
    The scan loop over `list`: `allowable` is raised when an entry equals `s`
    and is never lowered; the loop always runs to the end of the list.
   */
  function Scan(list: seq<nat>, s: nat, allowable: bool): (r: bool)
    ensures r <==> allowable || s in list
  {
    if |list| == 0 then allowable
    else
      assert list == [list[0]] + list[1..];
      Scan(list[1..], s, allowable || s == list[0])
  }

  /** The scan over `valid_die_side_nums` is membership in `validDieSideNums` of `droll.go`: both name the same shapes. */
  lemma ScanIsMembership(s: nat)
    ensures Scan(ValidDieSideNumsList, s, false) <==> s in Droll.ValidDieSideNums
  {
  }

  /** The `s > 20` test never rejects a value the scan would accept. */
  lemma CapSubsumed(s: nat)
    ensures (s > 20 || !Scan(ValidDieSideNumsList, s, false)) <==> !Scan(ValidDieSideNumsList, s, false)
  {
  }

  /** The body of the loop in `ParseRollCommand`: one term to one `RollCommand`. */
  function ParseCommandToken(token: string): (r: Result<RollCommand, TokenParsingError>)
    ensures Count(token, 'd') != 1 ==> r == Err(TokenParsingError(Droll.UnrecognizedDetails(token)))
    ensures r.Ok? ==> Count(token, 'd') == 1 && r.value.sides in Droll.ValidDieSideNums
  {
    var tokenSplit := Split(token, 'd');
    if |tokenSplit| != 2 then
      Err(TokenParsingError(Droll.UnrecognizedDetails(token)))
    else
      var n := ParseUint8(tokenSplit[0]);
      if n.Err? || n.value > MaxUint8 then
        Err(TokenParsingError(Droll.NumDetails(tokenSplit[0])))
      else
        var s := ParseUint8(tokenSplit[1]);
        if s.Err? || s.value > 20 then
          Err(TokenParsingError(SidesDetails(tokenSplit[1])))
        else if !Scan(ValidDieSideNumsList, s.value, false) then
          Err(TokenParsingError(SidesDetails(tokenSplit[1])))
        else
          Ok(RollCommand(n.value, s.value))
  }

  /** Term `i` is the first term that fails to parse. */
  predicate FirstBad(terms: seq<string>, i: int)
  {
    && 0 <= i < |terms|
    && ParseCommandToken(terms[i]).Err?
    && forall j :: 0 <= j < i ==> ParseCommandToken(terms[j]).Ok?
  }

  /** The loop over the terms: all-or-nothing, one command per term, in order, failing at the first bad term. */
  function ParseCommands(terms: seq<string>): (r: Result<seq<RollCommand>, TokenParsingError>)
    ensures r.Ok? ==> |r.value| == |terms| && forall i :: 0 <= i < |terms| ==> ParseCommandToken(terms[i]) == Ok(r.value[i])
    ensures r.Err? ==> exists i :: FirstBad(terms, i) && r.error == ParseCommandToken(terms[i]).error
  {
    if |terms| == 0 then Ok([])
    else
      match ParseCommandToken(terms[0])
      case Err(e) =>
        assert FirstBad(terms, 0);
        Err(e)
      case Ok(c) =>
        match ParseCommands(terms[1..])
        case Err(e) =>
          var i :| FirstBad(terms[1..], i) && e == ParseCommandToken(terms[1..][i]).error;
          assert FirstBad(terms, i + 1);
          Err(e)
        case Ok(cs) =>
          Ok([c] + cs)
  }

  /**
    `ParseRollCommand`: each `+`-separated term gives one `RollCommand`, in
    order, or the whole parse fails with the first bad term's error. The empty
    command is one empty term, which is not a dice roll.
   */
  function ParseRollCommand(rollCommandString: string): (r: Result<seq<RollCommand>, TokenParsingError>)
    ensures rollCommandString == "" ==> r == Err(TokenParsingError(Droll.UnrecognizedDetails("")))
    ensures r.Ok? ==>
      && rollCommandString != ""
      && |r.value| == |Split(rollCommandString, '+')|
      && forall i :: 0 <= i < |r.value| ==> ParseCommandToken(Split(rollCommandString, '+')[i]) == Ok(r.value[i])
    ensures r.Err? ==>
      exists i :: FirstBad(Split(rollCommandString, '+'), i) && r.error == ParseCommandToken(Split(rollCommandString, '+')[i]).error
  {
    var terms := Split(rollCommandString, '+');
    assert rollCommandString == "" ==> terms == [""] && FirstBad(terms, 0);
    ParseCommands(terms)
  }
}
