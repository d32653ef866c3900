/**
  `Roll` from `pkg/droll/droll.go`: for every token, in order, roll its dice
  and report each one, then write a blank-line separator; finally report the
  total. The random source is an oracle and the writer is the outcome of each
  successive write; the first failed write ends the roll with that write's error.
 */
module Roller {
  import opened Results
  import opened GoStrings
  import opened GoStrconv
  import opened Droll

  /** One write `Roll` makes. */
  datatype Line =
    | DieLine(sides: nat, result: nat)
    | Separator
    | TotalLine(total: nat)

  /**
    The text of a write, as the `fmt.Sprintf` formats print it; write `k` of
    `Roll` prints `Text(written[k])`. Every write starts a new line, and only
    the separator is a bare line break.
   */
  function Text(line: Line): (s: string)
    ensures |s| > 0 && s[0] == '\n'
    ensures line.Separator? <==> s == "\n"
  {
    match line
    case DieLine(sides, result) => "\nRolling a d" + Decimal(sides) + "... " + Decimal(result)
    case Separator => "\n"
    case TotalLine(total) => "\nTotal: " + Decimal(total)
  }

  /** The error a failed write returns. */
  datatype IoError = IoError(reason: string)

  /** What the writer does with one write. */
  datatype WriteOutcome = Written | WriteFailed(err: IoError)

  /**
    The random source: `intn(k, n)` is what the `k`-th call `r.Intn(n)`
    returns, which `Intn` promises lies in `[0, n)` for `n > 0`.
   */
  ghost predicate OracleInRange(intn: (nat, nat) -> nat)
  {
    forall k, n :: 0 < n ==> intn(k, n) < n
  }

  /** `Intn` panics on a die with no sides, so a token that rolls dice must have sides. */
  predicate Rollable(tokens: seq<RollTokens>)
  {
    forall i :: 0 <= i < |tokens| ==> tokens[i].num > 0 ==> tokens[i].sides > 0
  }

  /** Every list the parser accepts can be rolled: its dice all have an allowed, non-zero number of sides. */
  lemma ParsedRollable(s: string, tokens: seq<RollTokens>)
    requires ParseRollTokens(s) == Ok(tokens)
    ensures forall i :: 0 <= i < |tokens| ==> tokens[i].sides in ValidDieSideNums
    ensures Rollable(tokens)
  {
    var terms := Split(s, '+');
    forall i | 0 <= i < |tokens|
      ensures tokens[i].sides > 0
    {
      var r := ParseToken(terms[i]);
      assert r == Ok(tokens[i]);
      assert r.value.sides in ValidDieSideNums;
    }
  }

  /** Total number of dice in `tokens`. */
  function SumNum(tokens: seq<RollTokens>): nat
  {
    if |tokens| == 0 then 0 else tokens[0].num + SumNum(tokens[1..])
  }

  /** Largest total `tokens` can roll. */
  function SumMax(tokens: seq<RollTokens>): nat
  {
    if |tokens| == 0 then 0 else tokens[0].num * tokens[0].sides + SumMax(tokens[1..])
  }

  /** The reports of `count` dice of `sides` sides, using draws `start`, `start + 1`, ... */
  function Dice(sides: nat, start: nat, count: nat, intn: (nat, nat) -> nat): seq<Line>
    decreases count
  {
    if count == 0 then []
    else [DieLine(sides, intn(start, sides) + 1)] + Dice(sides, start + 1, count - 1, intn)
  }

  /** Every write before the total line, the first die using draw `start`: per token, its dice then a separator. */
  function Body(tokens: seq<RollTokens>, start: nat, intn: (nat, nat) -> nat): seq<Line>
  {
    if |tokens| == 0 then []
    else Dice(tokens[0].sides, start, tokens[0].num, intn) + [Separator] + Body(tokens[1..], start + tokens[0].num, intn)
  }

  /** Sum of the results reported in `lines`. */
  function DieTotal(lines: seq<Line>): nat
  {
    if |lines| == 0 then 0
    else DieTotal(lines[..|lines| - 1]) + (if lines[|lines| - 1].DieLine? then lines[|lines| - 1].result else 0)
  }

  /** Everything `Roll` writes when every write succeeds. */
  function Transcript(tokens: seq<RollTokens>, intn: (nat, nat) -> nat): seq<Line>
  {
    Body(tokens, 0, intn) + [TotalLine(DieTotal(Body(tokens, 0, intn)))]
  }

  /** Writing one more line adds its result, if it reports a die, to the total of the lines. */
  lemma DieTotalSnoc(lines: seq<Line>, line: Line)
    ensures DieTotal(lines + [line]) == DieTotal(lines) + (if line.DieLine? then line.result else 0)
  {
    assert (lines + [line])[..|lines|] == lines;
  }

  /** Appending the same tail to both sides of an equation between concatenations. */
  lemma ExtendBoth(a: seq<Line>, b: seq<Line>, c: seq<Line>, d: seq<Line>, e: seq<Line>)
    requires a + b == c + d
    ensures a + (b + e) == c + (d + e)
  {
    assert a + (b + e) == (a + b) + e;
    assert c + (d + e) == (c + d) + e;
  }

  /** Moving the first report of a run of dice onto what has been written. */
  lemma DiceShift(w: seq<Line>, sides: nat, start: nat, n: nat, intn: (nat, nat) -> nat)
    requires n > 0
    ensures w + Dice(sides, start, n, intn)
         == (w + [DieLine(sides, intn(start, sides) + 1)]) + Dice(sides, start + 1, n - 1, intn)
  {
  }

  /** Peeling the first token off a body. */
  lemma BodyCons(tokens: seq<RollTokens>, start: nat, intn: (nat, nat) -> nat)
    requires |tokens| > 0
    ensures Body(tokens, start, intn)
         == Dice(tokens[0].sides, start, tokens[0].num, intn) + ([Separator] + Body(tokens[1..], start + tokens[0].num, intn))
  {
  }

  /** `a` is the start of `b`. */
  ghost predicate IsPrefix(a: seq<Line>, b: seq<Line>)
  {
    |a| <= |b| && a == b[..|a|]
  }

  lemma PrefixByExtension(a: seq<Line>, b: seq<Line>, c: seq<Line>)
    requires a + b == c
    ensures IsPrefix(a, c)
  {
    assert c[..|a|] == a;
  }

  lemma PrefixTrans(a: seq<Line>, b: seq<Line>, c: seq<Line>)
    requires IsPrefix(a, b) && IsPrefix(b, c)
    ensures IsPrefix(a, c)
  {
    assert c[..|b|][..|a|] == c[..|a|];
  }

  /** The first `n` writes succeeded. */
  ghost predicate AllWritten(writer: nat -> WriteOutcome, n: nat)
  {
    forall k :: 0 <= k < n ==> writer(k).Written?
  }

  /**
    The variables of `Roll` between statements: the writes made so far, the
    running `total`, the number of draws taken, and the error that ended the
    roll, if any.
   */
  datatype State = State(written: seq<Line>, total: nat, draws: nat, err: Option<IoError>)

  /** One `io.WriteString` call; the writer's answer for this write decides whether it fails. */
  function Write(st: State, line: Line, writer: nat -> WriteOutcome): (r: State)
    requires st.err.None?
    ensures r.written == st.written + [line] && r.total == st.total && r.draws == st.draws
    ensures r.err.None? <==> writer(|st.written|).Written?
    ensures r.err.Some? ==> r.err.value == writer(|st.written|).err
  {
    var w := st.written + [line];
    match writer(|st.written|)
    case Written => st.(written := w)
    case WriteFailed(e) => st.(written := w, err := Some(e))
  }

  /** Drawing one die of `sides` sides and reporting it. */
  function RollOne(sides: nat, st: State, intn: (nat, nat) -> nat, writer: nat -> WriteOutcome): State
    requires st.err.None?
  {
    var res := intn(st.draws, sides) + 1;
    Write(st.(total := st.total + res, draws := st.draws + 1), DieLine(sides, res), writer)
  }

  /** The inner loop of `Roll`: roll `n` more dice of `sides` sides, stopping at the first failed write. */
  function RollDice(sides: nat, n: nat, st: State, intn: (nat, nat) -> nat, writer: nat -> WriteOutcome): State
    requires st.err.None?
    decreases n
  {
    if n == 0 then st
    else
      var st1 := RollOne(sides, st, intn, writer);
      if st1.err.Some? then st1 else RollDice(sides, n - 1, st1, intn, writer)
  }

  /** The outer loop of `Roll`: per remaining token, its dice then a separator, stopping at the first failed write. */
  function RollTokensFrom(tokens: seq<RollTokens>, st: State, intn: (nat, nat) -> nat, writer: nat -> WriteOutcome): State
    requires st.err.None?
    decreases |tokens|
  {
    if |tokens| == 0 then st
    else
      var st1 := RollDice(tokens[0].sides, tokens[0].num, st, intn, writer);
      if st1.err.Some? then st1
      else
        var st2 := Write(st1, Separator, writer);
        if st2.err.Some? then st2 else RollTokensFrom(tokens[1..], st2, intn, writer)
  }

  /** The inner loop makes one write and one draw per die it rolls, and stops early only on a failure. */
  lemma {:induction false} RollDiceCounts(sides: nat, n: nat, st: State, intn: (nat, nat) -> nat, writer: nat -> WriteOutcome)
    requires st.err.None?
    ensures var r := RollDice(sides, n, st, intn, writer);
      && |st.written| <= |r.written| <= |st.written| + n
      && r.draws == st.draws + (|r.written| - |st.written|)
      && (r.err.None? ==> |r.written| == |st.written| + n)
      && (r.err.Some? ==> |r.written| > |st.written|)
    decreases n
  {
    if n > 0 {
      var st1 := RollOne(sides, st, intn, writer);
      if st1.err.None? {
        RollDiceCounts(sides, n - 1, st1, intn, writer);
      }
    }
  }

  /** The inner loop's running total stays the sum of the reported dice. */
  lemma {:induction false} RollDiceTotal(sides: nat, n: nat, st: State, intn: (nat, nat) -> nat, writer: nat -> WriteOutcome)
    requires st.err.None? && st.total == DieTotal(st.written)
    ensures RollDice(sides, n, st, intn, writer).total == DieTotal(RollDice(sides, n, st, intn, writer).written)
    decreases n
  {
    if n > 0 {
      DieTotalSnoc(st.written, DieLine(sides, intn(st.draws, sides) + 1));
      var st1 := RollOne(sides, st, intn, writer);
      if st1.err.None? {
        RollDiceTotal(sides, n - 1, st1, intn, writer);
      }
    }
  }

  /** In the inner loop every write but a failing last one succeeded, and a failure is the last write's. */
  lemma {:induction false} RollDiceWrites(sides: nat, n: nat, st: State, intn: (nat, nat) -> nat, writer: nat -> WriteOutcome)
    requires st.err.None? && AllWritten(writer, |st.written|)
    ensures var r := RollDice(sides, n, st, intn, writer);
      && (r.err.None? ==> AllWritten(writer, |r.written|))
      && (r.err.Some? ==> |r.written| > 0 && AllWritten(writer, |r.written| - 1) && writer(|r.written| - 1) == WriteFailed(r.err.value))
    decreases n
  {
    if n > 0 {
      var st1 := RollOne(sides, st, intn, writer);
      if st1.err.None? {
        RollDiceWrites(sides, n - 1, st1, intn, writer);
      }
    }
  }

  /** What the inner loop wrote, followed by the reports of the dice it did not roll, is the reports of all `n` dice. */
  lemma {:induction false} RollDiceReports(sides: nat, n: nat, st: State, intn: (nat, nat) -> nat, writer: nat -> WriteOutcome)
    requires st.err.None?
    ensures var r := RollDice(sides, n, st, intn, writer);
      |r.written| >= |st.written| && |r.written| - |st.written| <= n &&
      r.written + Dice(sides, r.draws, n - (|r.written| - |st.written|), intn) == st.written + Dice(sides, st.draws, n, intn)
    decreases n
  {
    RollDiceCounts(sides, n, st, intn, writer);
    if n > 0 {
      var st1 := RollOne(sides, st, intn, writer);
      DiceShift(st.written, sides, st.draws, n, intn);
      if st1.err.None? {
        RollDiceReports(sides, n - 1, st1, intn, writer);
      }
    }
  }

  /** The outer loop's running total stays the sum of the reported dice. */
  lemma {:induction false} RollTokensTotal(tokens: seq<RollTokens>, st: State, intn: (nat, nat) -> nat, writer: nat -> WriteOutcome)
    requires st.err.None? && st.total == DieTotal(st.written)
    ensures RollTokensFrom(tokens, st, intn, writer).total == DieTotal(RollTokensFrom(tokens, st, intn, writer).written)
    decreases |tokens|
  {
    if |tokens| > 0 {
      RollDiceTotal(tokens[0].sides, tokens[0].num, st, intn, writer);
      var st1 := RollDice(tokens[0].sides, tokens[0].num, st, intn, writer);
      if st1.err.None? {
        DieTotalSnoc(st1.written, Separator);
        var st2 := Write(st1, Separator, writer);
        if st2.err.None? {
          RollTokensTotal(tokens[1..], st2, intn, writer);
        }
      }
    }
  }

  /** In the outer loop every write but a failing last one succeeded, and a failure is the last write's. */
  lemma {:induction false} RollTokensWrites(tokens: seq<RollTokens>, st: State, intn: (nat, nat) -> nat, writer: nat -> WriteOutcome)
    requires st.err.None? && AllWritten(writer, |st.written|)
    ensures var r := RollTokensFrom(tokens, st, intn, writer);
      && (r.err.None? ==> AllWritten(writer, |r.written|))
      && (r.err.Some? ==> |r.written| > 0 && AllWritten(writer, |r.written| - 1) && writer(|r.written| - 1) == WriteFailed(r.err.value))
    decreases |tokens|
  {
    if |tokens| > 0 {
      RollDiceWrites(tokens[0].sides, tokens[0].num, st, intn, writer);
      var st1 := RollDice(tokens[0].sides, tokens[0].num, st, intn, writer);
      if st1.err.None? {
        var st2 := Write(st1, Separator, writer);
        if st2.err.None? {
          RollTokensWrites(tokens[1..], st2, intn, writer);
        }
      }
    }
  }

  /**
    The outer loop writes, in token order, each token's dice and a separator:
    all of the body when no write fails, and otherwise a prefix of it.
   */
  lemma {:induction false} RollTokensReports(tokens: seq<RollTokens>, st: State, intn: (nat, nat) -> nat, writer: nat -> WriteOutcome)
    requires st.err.None?
    ensures var r := RollTokensFrom(tokens, st, intn, writer);
      && (r.err.None? ==> r.written == st.written + Body(tokens, st.draws, intn))
      && IsPrefix(r.written, st.written + Body(tokens, st.draws, intn))
    decreases |tokens|
  {
    var whole := st.written + Body(tokens, st.draws, intn);
    if |tokens| == 0 {
      PrefixByExtension(st.written, [], whole);
    } else {
      FirstTokenReports(tokens, st, intn, writer);
      var st1 := RollDice(tokens[0].sides, tokens[0].num, st, intn, writer);
      if st1.err.None? {
        var st2 := Write(st1, Separator, writer);
        if st2.err.Some? {
          PrefixByExtension(st2.written, Body(tokens[1..], st2.draws, intn), whole);
        } else {
          RollTokensReports(tokens[1..], st2, intn, writer);
        }
      }
    }
  }

  /**
    One step of the outer loop: after the first token's dice, what was written
    is a prefix of the body when a write failed, and otherwise, after the
    separator, what was written followed by the rest of the body is the body.
   */
  lemma FirstTokenReports(tokens: seq<RollTokens>, st: State, intn: (nat, nat) -> nat, writer: nat -> WriteOutcome)
    requires st.err.None? && |tokens| > 0
    ensures var whole := st.written + Body(tokens, st.draws, intn);
      var st1 := RollDice(tokens[0].sides, tokens[0].num, st, intn, writer);
      && (st1.err.Some? ==> IsPrefix(st1.written, whole))
      && (st1.err.None? ==>
            var st2 := Write(st1, Separator, writer);
            st2.written + Body(tokens[1..], st2.draws, intn) == whole)
  {
    var token := tokens[0];
    var whole := st.written + Body(tokens, st.draws, intn);
    var rest := [Separator] + Body(tokens[1..], st.draws + token.num, intn);
    BodyCons(tokens, st.draws, intn);
    RollDiceReports(token.sides, token.num, st, intn, writer);
    RollDiceCounts(token.sides, token.num, st, intn, writer);
    var st1 := RollDice(token.sides, token.num, st, intn, writer);
    var rolled := |st1.written| - |st.written|;
    var left := Dice(token.sides, st1.draws, token.num - rolled, intn);
    ExtendBoth(st1.written, left, st.written, Dice(token.sides, st.draws, token.num, intn), rest);
    if st1.err.Some? {
      PrefixByExtension(st1.written, left + rest, whole);
    } else {
      assert left == [];
      var st2 := Write(st1, Separator, writer);
      assert st2.written + Body(tokens[1..], st2.draws, intn) == st1.written + rest;
    }
  }

  /** The two loops of `Roll`, run from the start, summed up. */
  lemma RollLoops(tokens: seq<RollTokens>, intn: (nat, nat) -> nat, writer: nat -> WriteOutcome)
    ensures var st := RollTokensFrom(tokens, State([], 0, 0, None), intn, writer);
      && st.total == DieTotal(st.written)
      && (st.err.None? ==> st.written == Body(tokens, 0, intn) && AllWritten(writer, |st.written|))
      && (st.err.Some? ==>
            && IsPrefix(st.written, Transcript(tokens, intn))
            && |st.written| > 0
            && AllWritten(writer, |st.written| - 1)
            && writer(|st.written| - 1) == WriteFailed(st.err.value))
  {
    var st0 := State([], 0, 0, None);
    var st := RollTokensFrom(tokens, st0, intn, writer);
    RollTokensTotal(tokens, st0, intn, writer);
    RollTokensWrites(tokens, st0, intn, writer);
    RollTokensReports(tokens, st0, intn, writer);
    var body := Body(tokens, 0, intn);
    assert [] + body == body;
    if st.err.Some? {
      PrefixByExtension(body, [TotalLine(DieTotal(body))], Transcript(tokens, intn));
      PrefixTrans(st.written, body, Transcript(tokens, intn));
    }
  }

  /** What `Roll` leaves behind: the writes it attempted, in order, and the error it returns. */
  datatype Run = Run(written: seq<Line>, err: Option<IoError>)

  /**
    `Roll`: `written` is what was handed to the writer, in order. It is a
    prefix of the full transcript; every write before the last succeeded; the
    returned error is that of the last write, so a failed write ends the roll;
    with no failure the whole transcript was written, closing with the total
    of all reported dice.
   */
  function Roll(tokens: seq<RollTokens>, intn: (nat, nat) -> nat, writer: nat -> WriteOutcome): (r: Run)
    requires Rollable(tokens)
    ensures IsPrefix(r.written, Transcript(tokens, intn))
    ensures |r.written| > 0
    ensures AllWritten(writer, |r.written| - 1)
    ensures r.err.Some? <==> writer(|r.written| - 1).WriteFailed?
    ensures r.err.Some? ==> r.err.value == writer(|r.written| - 1).err
    ensures r.err.None? ==> r.written == Transcript(tokens, intn)
  {
    var st := RollTokensFrom(tokens, State([], 0, 0, None), intn, writer);
    RollLoops(tokens, intn, writer);
    if st.err.Some? then
      Run(st.written, st.err)
    else
      var st1 := Write(st, TotalLine(st.total), writer);
      assert st1.written == Transcript(tokens, intn);
      PrefixByExtension(st1.written, [], st1.written);
      Run(st1.written, st1.err)
  }

  lemma {:induction false} DieTotalAppend(xs: seq<Line>, ys: seq<Line>)
    ensures DieTotal(xs + ys) == DieTotal(xs) + DieTotal(ys)
    decreases |ys|
  {
    if |ys| == 0 {
      assert xs + ys == xs;
    } else {
      var init, last := ys[..|ys| - 1], ys[|ys| - 1];
      assert ys == init + [last];
      assert xs + ys == (xs + init) + [last];
      DieTotalSnoc(xs + init, last);
      DieTotalSnoc(init, last);
      DieTotalAppend(xs, init);
    }
  }

  /** Number of die reports in `lines`. */
  function DieCount(lines: seq<Line>): nat
  {
    if |lines| == 0 then 0 else (if lines[0].DieLine? then 1 else 0) + DieCount(lines[1..])
  }

  lemma {:induction false} DieCountAppend(xs: seq<Line>, ys: seq<Line>)
    ensures DieCount(xs + ys) == DieCount(xs) + DieCount(ys)
    decreases |xs|
  {
    if |xs| == 0 {
      assert xs + ys == ys;
    } else {
      assert (xs + ys)[1..] == xs[1..] + ys;
      DieCountAppend(xs[1..], ys);
    }
  }

  /**
    A run of `n` reports of `sides`-sided dice: `n` writes, all die reports,
    each result in `[1, sides]` when the oracle keeps its promise.
   */
  lemma {:induction false} DiceShape(sides: nat, start: nat, n: nat, intn: (nat, nat) -> nat)
    requires OracleInRange(intn)
    requires n > 0 ==> sides > 0
    ensures var d := Dice(sides, start, n, intn);
      && |d| == n
      && DieCount(d) == n
      && (forall i :: 0 <= i < |d| ==> d[i].DieLine? && d[i].sides == sides && 1 <= d[i].result <= sides)
    decreases n
  {
    if n > 0 {
      var head := DieLine(sides, intn(start, sides) + 1);
      var tail := Dice(sides, start + 1, n - 1, intn);
      DiceShape(sides, start + 1, n - 1, intn);
      assert intn(start, sides) < sides;
      var d := [head] + tail;
      assert Dice(sides, start, n, intn) == d;
      assert d[1..] == tail;
    }
  }

  /** The total of `n` reported `sides`-sided dice lies between `n` and `n * sides`. */
  lemma {:induction false} DiceTotalBounds(sides: nat, start: nat, n: nat, intn: (nat, nat) -> nat)
    requires OracleInRange(intn)
    requires n > 0 ==> sides > 0
    ensures n <= DieTotal(Dice(sides, start, n, intn)) <= n * sides
    decreases n
  {
    if n > 0 {
      var head := DieLine(sides, intn(start, sides) + 1);
      var tail := Dice(sides, start + 1, n - 1, intn);
      DiceTotalBounds(sides, start + 1, n - 1, intn);
      assert intn(start, sides) < sides;
      DieTotalAppend([head], tail);
      DieTotalSnoc([], head);
      assert [] + [head] == [head];
      assert n * sides == sides + (n - 1) * sides;
    }
  }

  /**
    The body for `tokens`: `SumNum(tokens) + |tokens|` writes of which
    `SumNum(tokens)` report dice, each result in `[1, sides]`.
   */
  lemma {:induction false} BodyShape(tokens: seq<RollTokens>, start: nat, intn: (nat, nat) -> nat)
    requires OracleInRange(intn)
    requires Rollable(tokens)
    ensures var b := Body(tokens, start, intn);
      && |b| == SumNum(tokens) + |tokens|
      && DieCount(b) == SumNum(tokens)
      && (forall i :: 0 <= i < |b| && b[i].DieLine? ==> 1 <= b[i].result <= b[i].sides)
    decreases |tokens|
  {
    if |tokens| > 0 {
      var t := tokens[0];
      var d := Dice(t.sides, start, t.num, intn);
      var rest := Body(tokens[1..], start + t.num, intn);
      DiceShape(t.sides, start, t.num, intn);
      BodyShape(tokens[1..], start + t.num, intn);
      var ds := d + [Separator];
      var b := ds + rest;
      assert Body(tokens, start, intn) == b;
      DieCountAppend(ds, rest);
      DieCountAppend(d, [Separator]);
      assert DieCount([Separator]) == 0;
      forall i | 0 <= i < |b| && b[i].DieLine?
        ensures 1 <= b[i].result <= b[i].sides
      {
        if i >= |ds| {
          assert b[i] == rest[i - |ds|];
        } else {
          assert b[i] == d[i];
        }
      }
    }
  }

  /** The total of the body for `tokens` lies between `SumNum(tokens)` and `SumMax(tokens)`. */
  lemma {:induction false} BodyTotalBounds(tokens: seq<RollTokens>, start: nat, intn: (nat, nat) -> nat)
    requires OracleInRange(intn)
    requires Rollable(tokens)
    ensures SumNum(tokens) <= DieTotal(Body(tokens, start, intn)) <= SumMax(tokens)
    decreases |tokens|
  {
    if |tokens| > 0 {
      var t := tokens[0];
      var d := Dice(t.sides, start, t.num, intn);
      var rest := Body(tokens[1..], start + t.num, intn);
      DiceTotalBounds(t.sides, start, t.num, intn);
      BodyTotalBounds(tokens[1..], start + t.num, intn);
      assert Body(tokens, start, intn) == (d + [Separator]) + rest;
      DieTotalAppend(d + [Separator], rest);
      DieTotalSnoc(d, Separator);
    }
  }

  /**
    With an oracle that keeps its promise, the full transcript is
    `SumNum(tokens) + |tokens| + 1` writes: one per die, one separator per
    token, and a closing total equal to the sum of all reported dice, each in
    `[1, sides]`, so the total lies between `SumNum(tokens)` and `SumMax(tokens)`.
   */
  lemma TranscriptFacts(tokens: seq<RollTokens>, intn: (nat, nat) -> nat)
    requires OracleInRange(intn)
    requires Rollable(tokens)
    ensures var tr := Transcript(tokens, intn);
      && |tr| == SumNum(tokens) + |tokens| + 1
      && DieCount(tr) == SumNum(tokens)
      && (forall i :: 0 <= i < |tr| && tr[i].DieLine? ==> 1 <= tr[i].result <= tr[i].sides)
      && tr[|tr| - 1] == TotalLine(DieTotal(tr[..|tr| - 1]))
      && SumNum(tokens) <= tr[|tr| - 1].total <= SumMax(tokens)
  {
    var b := Body(tokens, 0, intn);
    BodyShape(tokens, 0, intn);
    BodyTotalBounds(tokens, 0, intn);
    var tr := Transcript(tokens, intn);
    assert tr[..|tr| - 1] == b;
    DieCountAppend(b, [TotalLine(DieTotal(b))]);
    assert DieCount([TotalLine(DieTotal(b))]) == 0;
  }

  /** With a writer that never fails, `Roll` writes the whole transcript and returns no error. */
  lemma ReliableWriter(tokens: seq<RollTokens>, intn: (nat, nat) -> nat, writer: nat -> WriteOutcome)
    requires Rollable(tokens)
    requires forall k :: writer(k).Written?
    ensures Roll(tokens, intn, writer) == Run(Transcript(tokens, intn), None)
  {
  }

  /**
    `Roll` stops at the first failed write: if write `f` of the transcript is
    the first to fail, exactly writes `0..f` were attempted and write `f`'s
    error is returned.
   */
  lemma StopsAtFirstFailure(tokens: seq<RollTokens>, intn: (nat, nat) -> nat, writer: nat -> WriteOutcome, f: nat)
    requires Rollable(tokens)
    requires f < |Transcript(tokens, intn)|
    requires AllWritten(writer, f) && writer(f).WriteFailed?
    ensures Roll(tokens, intn, writer) == Run(Transcript(tokens, intn)[..f + 1], Some(writer(f).err))
  {
    var r := Roll(tokens, intn, writer);
    var m := |r.written| - 1;
    assert r.err.Some?;
    assert m >= f;
    assert m <= f;
  }

  /**
    Rolling `2d6+1d4` (the tokens `Droll.ExampleTwoGroups` parses it into)
    with a reliable writer: six writes (three dice, two separators, the
    total), and the total lies between 3 and 16.
   */
  lemma ExampleRollTwoGroups(intn: (nat, nat) -> nat, writer: nat -> WriteOutcome)
    requires OracleInRange(intn)
    requires forall k :: writer(k).Written?
    ensures var r := Roll([RollTokens(2, 6), RollTokens(1, 4)], intn, writer);
      && r.err.None?
      && |r.written| == 6
      && r.written[5].TotalLine?
      && 3 <= r.written[5].total <= 16
  {
    var tokens := [RollTokens(2, 6), RollTokens(1, 4)];
    ReliableWriter(tokens, intn, writer);
    TranscriptFacts(tokens, intn);
    assert tokens[1..][1..] == [];
    assert SumNum(tokens) == 3;
    assert SumMax(tokens) == 16;
  }
}
