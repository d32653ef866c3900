/**
  Go's `strconv.ParseUint(s, 10, 8)`, the only number parser the dice grammar
  uses, and decimal rendering (`%d`) of naturals. The parser is written as Go's
  left-to-right digit loop with its early overflow exit; `Digits` and `Value`
  are the reference reading of a decimal literal it is proved against.
 */
module GoStrconv {
  import opened Results

  /** Go's `uint8`. */
  type Uint8 = x: nat | x < 256

  /** Largest value of an 8-bit unsigned integer (`1<<8 - 1`). */
  const MaxUint8: nat := 255

  /** Go's `cutoff` for base 10: the smallest value that overflows `uint64` when multiplied by 10. */
  const Cutoff: nat := 0xFFFF_FFFF_FFFF_FFFF / 10 + 1

  /** The two `*NumError` kinds `ParseUint` can return. */
  datatype NumError = ErrSyntax | ErrRange

  predicate IsDigit(c: char)
  {
    '0' <= c <= '9'
  }

  function DigitValue(c: char): (d: nat)
    requires IsDigit(c)
    ensures d < 10
  {
    (c as int) - ('0' as int)
  }

  predicate AllDigits(s: string)
  {
    forall i :: 0 <= i < |s| ==> IsDigit(s[i])
  }

  /** A decimal literal: non-empty, ASCII digits only, no sign, leading zeros allowed. */
  predicate IsDecimal(s: string)
  {
    |s| > 0 && AllDigits(s)
  }

  /** The number a string of digits denotes. */
  function Value(s: string): nat
    requires AllDigits(s)
  {
    if |s| == 0 then 0
    else Value(s[..|s| - 1]) * 10 + DigitValue(s[|s| - 1])
  }

  /**
    The digit loop of `ParseUint` from position `i` on, with `n` the value of
    `s[..i]`. A non-digit (a letter's digit value is at least the base, so it
    fails the same way) is a syntax error; a value above 255 is a range error
    at the digit that produces it. Go's `n1 < n` wrap-around test cannot fire
    because `n` never exceeds 255.
   */
  function Accumulate(s: string, i: nat, n: Uint8): Result<Uint8, NumError>
    requires i <= |s|
    decreases |s| - i
  {
    if i == |s| then Ok(n)
    else if !IsDigit(s[i]) then Err(ErrSyntax)
    else if n >= Cutoff then Err(ErrRange)
    else
      var n1 := n * 10 + DigitValue(s[i]);
      if n1 > MaxUint8 then Err(ErrRange)
      else Accumulate(s, i + 1, n1)
  }

  /** `strconv.ParseUint(s, 10, 8)`: accepts exactly the decimal literals whose value fits in 8 bits. */
  function ParseUint8(s: string): (r: Result<Uint8, NumError>)
    ensures r.Ok? <==> IsDecimal(s) && Value(s) <= MaxUint8
    ensures r.Ok? ==> r.value == Value(s)
    ensures s == "" ==> r == Err(ErrSyntax)
  {
    if |s| == 0 then Err(ErrSyntax)
    else
      AccumulateCorrect(s, 0, 0);
      Accumulate(s, 0, 0)
  }

  /** Appending a digit never decreases the value. */
  lemma {:induction false} ValuePrefixMonotone(s: string, i: nat, j: nat)
    requires AllDigits(s)
    requires i <= j <= |s|
    ensures AllDigits(s[..i]) && AllDigits(s[..j])
    ensures Value(s[..i]) <= Value(s[..j])
  {
    if i < j {
      ValuePrefixMonotone(s, i, j - 1);
      assert s[..j][..j - 1] == s[..j - 1];
    }
  }

  /** The digit loop accepts exactly the digit strings of value at most 255, with that value. */
  lemma {:induction false} AccumulateCorrect(s: string, i: nat, n: Uint8)
    requires i <= |s|
    requires AllDigits(s[..i]) && n == Value(s[..i])
    ensures Accumulate(s, i, n).Ok? <==> AllDigits(s) && Value(s) <= MaxUint8
    ensures Accumulate(s, i, n).Ok? ==> Accumulate(s, i, n).value == Value(s)
    decreases |s| - i
  {
    assert s[..|s|] == s;
    if i == |s| {
    } else if !IsDigit(s[i]) {
    } else {
      var n1 := n * 10 + DigitValue(s[i]);
      assert s[..i + 1][..i] == s[..i];
      assert AllDigits(s[..i + 1]);
      assert Value(s[..i + 1]) == n1;
      if n1 > MaxUint8 {
        if AllDigits(s) {
          ValuePrefixMonotone(s, i + 1, |s|);
        }
      } else {
        AccumulateCorrect(s, i + 1, n1);
      }
    }
  }

  function DigitChar(d: nat): (c: char)
    requires d < 10
    ensures IsDigit(c) && DigitValue(c) == d
  {
    ('0' as int + d) as char
  }

  /** Go's `%d` rendering of a natural number, without leading zeros. */
  function Decimal(n: nat): (s: string)
    ensures IsDecimal(s) && Value(s) == n
    ensures n > 0 ==> s[0] != '0'
    ensures n == 0 ==> s == "0"
  {
    if n < 10 then [DigitChar(n)]
    else
      var s := Decimal(n / 10) + [DigitChar(n % 10)];
      assert s[..|s| - 1] == Decimal(n / 10);
      s
  }

  /** Parsing the rendering of any 8-bit value gives the value back. */
  lemma ParseDecimal(n: Uint8)
    ensures ParseUint8(Decimal(n)) == Ok(n)
  {
  }
}
