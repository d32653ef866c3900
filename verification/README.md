# droll: dice-command parsing and rolling, in Dafny

`droll` is a small Go package for tabletop dice. A command such as
`2d6+1d4` is a `+`-separated list of terms `<count>d<sides>`. The package
has two parsers and one roller:

- `ParseRollTokens` (`pkg/droll/droll.go`) turns a command into an ordered
  list of `RollTokens`. If any term is bad, it returns a
  `DRollTokenParsingError` for the first bad term and no list.
- `ParseRollCommand` (`pkg/droll/parser.go`) is the other revision of the
  same parser. It builds `RollCommand`s and has no special case for the
  empty command. It checks the die shape with a scan over a slice, where
  `ParseRollTokens` uses a map lookup.
- `Roll` (`pkg/droll/droll.go`) rolls every die of every token, in order. It
  writes one line per die, a blank line after each token, and finally the
  total. It stops at the first write that fails and returns that write's
  error.

The project has these modules:

- `Results`: the `Result`/`Option` datatypes.
- `GoStrings`: `strings.Split` with a one-character separator, and its
  inverse `Join`.
- `GoStrconv`: `strconv.ParseUint(s, 10, 8)` and `%d` rendering.
- `Droll`: the parser in `droll.go`.
- `Parser`: the parser in `parser.go`.
- `Revisions`: how the two parsers relate.
- `Roller`: `Roll`.

The two Go library functions are modelled from their documented behaviour.
`Split` on the empty string yields one empty piece. `ParseUint` rejects the
empty string, any non-digit, and any value above 255. It accepts leading
zeros.

Where the code contradicts its own error text:

- **Count 0.** The count error says counts must be "greater than 0 and less
  than 256", but `0d6` parses to one token with count 0
  (`Droll.ZeroCountAccepted`). Only the `uint8` range is enforced.

Other behaviour worth noting:

- **No ceiling.** Nothing limits the total number of dice in a command.
- **Details differ.** The two parsers' error details differ in two places.
  The first is the empty command. The second is every sides error: the
  allowed shapes are printed with Go's `%v`, which gives
  `map[4:{} 6:{} 8:{} 10:{} 12:{} 20:{}]` for the map in `droll.go` and
  `[4 6 8 10 12 20]` for the slice in `parser.go`. `Revisions.ParsersAgree`
  states exactly this.

The model follows the code in each of these cases.

Randomness and output are parameters of `Roll`:

- `intn(k, n)` is the value returned by the `k`-th call `Intn(n)`.
- `writer(k)` is the outcome of the `k`-th write.
- The result is the sequence of writes attempted and the error returned.

## Model

| member | source | states |
|---|---|---|
| GoStrings.Split | pkg/droll/droll.go:58-59 | A string with k separators splits into k+1 pieces. No piece contains the separator. Joining the pieces with the separator gives back the input, so the empty string is one empty piece. |
| GoStrings.SplitNoSeparator | pkg/droll/droll.go:58-59 | A string without the separator splits into itself alone. |
| GoStrings.SplitAtSeparator | pkg/droll/droll.go:58-59 | A separator-free head, the separator, then a tail: the split is the head followed by the split of the tail. |
| GoStrings.SplitJoin | pkg/droll/droll.go:58-59 | Splitting the join of a non-empty list of separator-free pieces gives back the pieces. |
| GoStrconv.ParseUint8 | pkg/droll/droll.go:69-83 | The result is Ok exactly when the text is a non-empty all-digit literal of value at most 255, and then the value is that number. The empty text is a syntax error. |
| GoStrconv.AccumulateCorrect | pkg/droll/droll.go:69 | The digit loop, with its uint64 cutoff and 8-bit overflow tests, accepts exactly the digit strings of value at most 255, with their value. |
| GoStrconv.ValuePrefixMonotone | pkg/droll/droll.go:69 | A longer prefix of a digit string never has a smaller value, which is why the loop's overflow test is final. |
| GoStrconv.Decimal | pkg/droll/droll.go:119 | The `%d` rendering of n is a decimal literal whose value is n, with no leading zero; 0 renders as `0`. |
| GoStrconv.ParseDecimal | pkg/droll/droll.go:69 | Parsing the rendering of any 8-bit value gives the value back. |
| Droll.DRollTokenParsingError.Error | pkg/droll/droll.go:43-46 | The message is always "invalid roll token", whatever the details. |
| Droll.HalvesIffSplit | pkg/droll/droll.go:59-61 | Splitting a term on `d` gives exactly two pieces a and b if and only if the term is a, `d`, b with no other `d`. |
| Droll.OneSeparatorHasHalves | pkg/droll/droll.go:59-61 | A term with exactly one `d` has such halves. |
| Droll.ParseToken | pkg/droll/droll.go:59-96 | A term whose `d` count is not one is refused as unrecognised, with the term in the details. An accepted term has exactly one `d` and an allowed die. |
| Droll.ParseHalves | pkg/droll/droll.go:67-96 | Accepted halves name an allowed die. |
| Droll.HalvesMeaning | pkg/droll/droll.go:67-96 | The source's three checks match the reference reading `TermMeaning`. The count must be a literal of at most 255, checked first. Then the sides must be a literal naming an allowed die. Otherwise the error carries the offending half. |
| Droll.AllowedAtMostTwenty | pkg/droll/droll.go:79-91 | Every allowed die has at most 20 sides, so the `> 20` test never refuses a value the set lookup would accept. |
| Droll.ParseTokenMeaning | pkg/droll/droll.go:59-96 | A term made of halves a and b parses to the reference meaning of a and b. |
| Droll.TokenMeaning | pkg/droll/droll.go:59-96 | A term parses if and only if it has halves whose reference meaning is a token. Every way of cutting it into halves gives its outcome. |
| Droll.ParseTerms | pkg/droll/droll.go:58-99 | On success there is one token per term, in order, each equal to that term's parse. On failure the error is that of the first term that fails, and all earlier terms parse. |
| Droll.ParseRollTokens | pkg/droll/droll.go:49-100 | The empty command is refused with "No command provided.". Otherwise the result is one token per `+`-separated term, in order, or the error of the first bad term. |
| Droll.ParsedTokensSpelled | pkg/droll/droll.go:49-100 | Each accepted token is spelled by its own term: a count literal (zero included, at most 255), one `d`, and the literal of an allowed die. |
| Droll.ParseRender | pkg/droll/droll.go:49-100 | Writing a non-empty list of allowed tokens as `<num>d<sides>` joined by `+` and parsing it gives back the list. |
| Droll.OneBadTermFailsAll | pkg/droll/droll.go:58-97 | If any term is bad, the whole command fails and no partial list is returned. |
| Droll.SingleTerm | pkg/droll/droll.go:58-99 | A command without `+` has the outcome of its single term. |
| Droll.TwoTerms | pkg/droll/droll.go:58-99 | Two good terms joined by `+` give their two tokens, in order. |
| Droll.ExampleTwoGroups | pkg/droll/droll.go:8-18 | The package's documented example `2d6+1d4` is two six-sided dice, then one four-sided die. |
| Droll.TwoGroupsTokens | pkg/droll/droll.go:59-96 | `2d6` and `1d4` each parse to their token. |
| Droll.DigitsToken | pkg/droll/droll.go:67-96 | One digit, `d`, one digit: the count always fits, and the term is refused with the sides error exactly when the die is not allowed. |
| Droll.DigitsCommand | pkg/droll/droll.go:49-100 | A whole command of one digit, `d`, one digit gives its single token, or the sides error exactly when the die is not allowed. |
| Droll.ZeroCountAccepted | pkg/droll/droll.go:69-75 | `0d6` is accepted with count 0, although the count error's text asks for a count greater than 0. |
| Droll.ZeroCountToken | pkg/droll/droll.go:69-75 | The term `0d6` parses to count 0, six sides. |
| Droll.ExampleDisallowedSides | pkg/droll/droll.go:85-91 | `2d7` is refused with the sides error naming `7`. |
| Droll.ExampleCountTooLarge | pkg/droll/droll.go:69-75 | `300d6` is refused with the count error naming `300`. |
| Droll.CountTooLargeToken | pkg/droll/droll.go:69-75 | The term `300d6` is refused with the count error naming `300`. |
| Droll.ThreeHundred | pkg/droll/droll.go:69 | `300` is a decimal literal of value 300, beyond 8 bits. |
| Droll.ExampleTwoSeparators | pkg/droll/droll.go:59-65 | `1d6d6` has two `d`s and is refused as unrecognised. |
| Parser.TokenParsingError.Error | pkg/droll/parser.go:20-22 | The message is always "invalid roll command token", whatever the details. |
| Parser.Scan | pkg/droll/parser.go:54-60 | The flag after the scan is raised if and only if it was raised before or the value occurs in the list. |
| Parser.ScanIsMembership | pkg/droll/parser.go:54-60 | Scanning `valid_die_side_nums` is membership in {4, 6, 8, 10, 12, 20}. |
| Parser.CapSubsumed | pkg/droll/parser.go:48-66 | Refusing when the value is above 20 or the scan misses is the same as refusing when the scan misses. |
| Parser.ParseCommandToken | pkg/droll/parser.go:28-71 | A term whose `d` count is not one is refused as unrecognised. An accepted term has one `d` and an allowed die. |
| Parser.ParseCommands | pkg/droll/parser.go:27-74 | On success there is one command per term, in order, each equal to that term's parse. On failure the error is that of the first term that fails. |
| Parser.ParseRollCommand | pkg/droll/parser.go:24-75 | The empty command is refused as the unrecognised empty term. Otherwise the result is one command per `+`-separated term, in order, or the error of the first bad term. |
| Revisions.TokensAgree | pkg/droll/parser.go:28-71 | On one term, both parsers accept with the same count and sides, or both refuse with the same complaint. |
| Revisions.ParsersAgree | pkg/droll/parser.go:24-75 | Both revisions accept exactly the same commands with the same lists. They refuse the empty command with different details. Otherwise they refuse with the same complaint, whose text differs only in how the allowed shapes are printed. |
| Revisions.CommandsSpelled | pkg/droll/parser.go:38-71 | Each accepted command is spelled by its own term: a count literal of at most 255 (zero included), one `d`, and the literal of an allowed die. |
| Roller.ParsedRollable | pkg/droll/droll.go:85-117 | Every token of an accepted list, zero-count tokens included, names an allowed die, so its sides are non-zero and `Intn` never receives 0. |
| Roller.Text | pkg/droll/droll.go:119-133 | Each write's text, as the three format strings print it, starts a new line. Only the separator is a bare line break. |
| Roller.Write | pkg/droll/droll.go:119-123 | One write appends its line and fails exactly when the writer fails it, returning the writer's error. |
| Roller.RollDiceCounts | pkg/droll/droll.go:116-124 | The inner loop makes one draw and one write per die rolled. It writes all n dice unless a write fails. |
| Roller.RollDiceTotal | pkg/droll/droll.go:116-118 | The inner loop keeps the running total equal to the sum of the reported dice. |
| Roller.RollDiceWrites | pkg/droll/droll.go:119-123 | In the inner loop every write but a failing last one succeeded, and a failure returns the last write's error. |
| Roller.RollDiceReports | pkg/droll/droll.go:116-124 | The inner loop writes a prefix of the reports of its n dice, or all of them when no write fails. |
| Roller.RollTokensTotal | pkg/droll/droll.go:115-131 | The outer loop keeps the running total equal to the sum of the reported dice. |
| Roller.RollTokensWrites | pkg/droll/droll.go:115-131 | In the outer loop every write but a failing last one succeeded, and a failure returns the last write's error. |
| Roller.RollTokensReports | pkg/droll/droll.go:115-131 | The outer loop writes a prefix of each token's dice followed by a separator, or all of it when no write fails. |
| Roller.RollLoops | pkg/droll/droll.go:110-131 | After both loops the total is the sum of the reported dice. Either the full body was written, or a prefix of the transcript ends in the failed write. |
| Roller.Roll | pkg/droll/droll.go:109-136 | The writes attempted are a non-empty prefix of the transcript. Every write before the last succeeded. An error is returned exactly when the last write failed, and it is that write's error. Without an error the whole transcript was written. |
| Roller.DiceShape | pkg/droll/droll.go:116-119 | n dice give n die reports, each with a result in [1, sides]. |
| Roller.DiceTotalBounds | pkg/droll/droll.go:116-118 | The total of n dice of `sides` sides lies between n and n times sides. |
| Roller.BodyShape | pkg/droll/droll.go:115-131 | Over all tokens the loops write one line per die and one separator per token, and every result is in [1, sides]. |
| Roller.BodyTotalBounds | pkg/droll/droll.go:115-131 | The total over all tokens lies between the number of dice and the largest possible roll. |
| Roller.TranscriptFacts | pkg/droll/droll.go:109-136 | The full transcript has (dice + tokens + 1) writes and closes with the total of every reported die. That total lies between the number of dice and the largest possible roll. |
| Roller.ReliableWriter | pkg/droll/droll.go:109-136 | With a writer that never fails, `Roll` writes the whole transcript and returns no error. |
| Roller.StopsAtFirstFailure | pkg/droll/droll.go:119-135 | If write f is the first to fail, exactly writes 0 to f are attempted and write f's error is returned. |
| Roller.ExampleRollTwoGroups | pkg/droll/droll.go:13-18 | Rolling the tokens of `2d6+1d4` with a reliable writer makes six writes, and the total lies in [3, 16]. |

## Left out

- Strings are sequences of Unicode characters, not Go's byte strings, so a command holding invalid UTF-8 cannot be written down. On valid input the outcomes agree, because the grammar only looks at the ASCII bytes `+`, `d` and `0`-`9`, and UTF-8 never puts those inside a multi-byte sequence.
- `cmd/droll/main.go` (the command-line wrapper that reads the arguments, calls the parser and `Roll`, and prints errors) is not part of this model: it is I/O around the core.
- Randomness: the model does not describe how `math/rand` draws or how it is seeded from the clock. `Intn` is an oracle, and its promise `0 <= Intn(n) < n` is the only assumption made.
- `io.Writer`: byte counts and partial writes are not modelled. Each `io.WriteString` call either succeeds or fails with an error.
- Roller.Roll: requires that every token with dice has at least one side. With zero sides Go's `Intn` panics, and panics are not modelled. Every list the parser returns meets this (`Roller.ParsedRollable`).
- Roller.Roll: the running `total` is Go's `int` but is unbounded here. At most 255 dice of at most 20 sides per token cannot overflow for any command short enough to type.
- GoStrconv.ParseUint8: the contract distinguishes the syntax error from the range error only for the empty text. Both parsers treat every `ParseUint` error alike.
- The other error kinds of `strconv.ParseUint` (bad base, bad bit size) cannot arise from the fixed arguments `10, 8` and are not modelled.
- Go's `uint8(n)` conversions are the identity here, because both values have already been checked to fit in 8 bits.
