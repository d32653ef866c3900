/**
  The two revisions of the parser side by side: `ParseRollTokens` in
  `droll.go` and `ParseRollCommand` in `parser.go` accept the same commands
  and build the same lists. Their error details differ only where the
  revisions print different texts: for the empty command, and in the list of
  allowed shapes, which one prints as a map and the other as a slice.
 */
module Revisions {
  import opened Results
  import opened GoStrings
  import GoStrconv
  import Droll
  import Parser

  /** The same `(num, sides)` pairs, in the same order. */
  predicate SameDice(ts: seq<Droll.RollTokens>, cs: seq<Parser.RollCommand>)
  {
    |ts| == |cs| && forall i :: 0 <= i < |ts| ==> ts[i].num == cs[i].num && ts[i].sides == cs[i].sides
  }

  /** Two details texts that say the same thing: equal, or the same sides complaint with the allowed set printed two ways. */
  ghost predicate SameComplaint(d1: string, d2: string)
  {
    d1 == d2 || exists text :: d1 == Droll.SidesDetails(text) && d2 == Parser.SidesDetails(text)
  }

  /** One term: both revisions accept it with the same pair, or both refuse it with the same complaint. */
  lemma TokensAgree(term: string)
    ensures Droll.ParseToken(term).Ok? <==> Parser.ParseCommandToken(term).Ok?
    ensures Droll.ParseToken(term).Ok? ==>
      && Droll.ParseToken(term).value.num == Parser.ParseCommandToken(term).value.num
      && Droll.ParseToken(term).value.sides == Parser.ParseCommandToken(term).value.sides
    ensures Droll.ParseToken(term).Err? ==>
      SameComplaint(Droll.ParseToken(term).error.details, Parser.ParseCommandToken(term).error.details)
  {
    var parts := Split(term, 'd');
    if |parts| == 2 {
      var s := GoStrconv.ParseUint8(parts[1]);
      if s.Ok? {
        Parser.ScanIsMembership(s.value);
      }
      if Droll.ParseToken(term) == Err(Droll.DRollTokenParsingError(Droll.SidesDetails(parts[1]))) {
        assert Droll.ParseToken(term).error.details == Droll.SidesDetails(parts[1]);
      }
    }
  }

  /**
    Whole commands: the revisions accept exactly the same commands with the
    same lists; on failure they complain about the same first bad term, except
    that the empty command gets a dedicated message in `droll.go` only.
   */
  lemma {:induction false} ParsersAgree(s: string)
    ensures Droll.ParseRollTokens(s).Ok? <==> Parser.ParseRollCommand(s).Ok?
    ensures Droll.ParseRollTokens(s).Ok? ==> SameDice(Droll.ParseRollTokens(s).value, Parser.ParseRollCommand(s).value)
    ensures s == "" ==>
      && Droll.ParseRollTokens(s).error.details == Droll.NoCommandDetails
      && Parser.ParseRollCommand(s).error.details == Droll.UnrecognizedDetails("")
    ensures s != "" && Droll.ParseRollTokens(s).Err? ==>
      SameComplaint(Droll.ParseRollTokens(s).error.details, Parser.ParseRollCommand(s).error.details)
  {
    if s != "" {
      var terms := Split(s, '+');
      forall i | 0 <= i < |terms|
        ensures Droll.ParseToken(terms[i]).Ok? <==> Parser.ParseCommandToken(terms[i]).Ok?
      {
        TokensAgree(terms[i]);
      }
      assert forall i :: Droll.FirstBad(terms, i) <==> Parser.FirstBad(terms, i);
      var a, b := Droll.ParseRollTokens(s), Parser.ParseRollCommand(s);
      if a.Ok? {
        forall i | 0 <= i < |a.value|
          ensures a.value[i].num == b.value[i].num && a.value[i].sides == b.value[i].sides
        {
          TokensAgree(terms[i]);
        }
      }
      if a.Err? {
        var i :| Droll.FirstBad(terms, i) && a.error == Droll.ParseToken(terms[i]).error;
        var j :| Parser.FirstBad(terms, j) && b.error == Parser.ParseCommandToken(terms[j]).error;
        assert i == j;
        TokensAgree(terms[i]);
      }
    }
  }

  /**
    Every command `ParseRollCommand` accepts is spelled by its own term: a
    count literal of at most 255 (zero included), one `d`, and the literal of
    an allowed die.
   */
  lemma CommandsSpelled(s: string, cs: seq<Parser.RollCommand>)
    requires Parser.ParseRollCommand(s) == Ok(cs)
    ensures forall i :: 0 <= i < |cs| ==> Droll.SpelledBy(Split(s, '+')[i], Droll.RollTokens(cs[i].num, cs[i].sides))
  {
    ParsersAgree(s);
    var ts := Droll.ParseRollTokens(s).value;
    Droll.ParsedTokensSpelled(s, ts);
    forall i | 0 <= i < |cs|
      ensures Droll.SpelledBy(Split(s, '+')[i], Droll.RollTokens(cs[i].num, cs[i].sides))
    {
      assert ts[i] == Droll.RollTokens(cs[i].num, cs[i].sides);
    }
  }
}
