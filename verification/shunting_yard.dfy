/**
 * Infix to postfix by the shunting-yard algorithm: numbers go straight to
 * the output, operators wait on a stack until an operator of lower
 * precedence, a closing parenthesis or the end of the input sends them out.
 */
module ShuntingYard {
  import opened Tokens

  function Top(s: seq<string>): string
    requires s != []
  {
    s[|s| - 1]
  }

  function Pop(s: seq<string>): seq<string>
    requires s != []
  {
    s[..|s| - 1]
  }

  /** The stack `s` read from the top down: the order repeated pops give. */
  function Reversed(s: seq<string>): seq<string>
    decreases |s|
  {
    if s == [] then [] else [Top(s)] + Reversed(Pop(s))
  }

  lemma {:induction false} ReversedMultiset(s: seq<string>)
    ensures multiset(Reversed(s)) == multiset(s)
    decreases |s|
  {
    if s != [] {
      ReversedMultiset(Pop(s));
      assert s == Pop(s) + [Top(s)];
    }
  }

  lemma PopMultiset(s: seq<string>)
    requires s != []
    ensures multiset(s) == multiset(Pop(s)) + multiset{Top(s)}
  {
    assert s == Pop(s) + [Top(s)];
  }

  /** The inner loop for an incoming operator `t`: stacked operators of
      greater or equal precedence move to the output. */
  function PopHigher(t: string, output: seq<string>, ops: seq<string>): (seq<string>, seq<string>)
    requires IsOperator(t)
    decreases |ops|
  {
    if ops != [] && IsOperator(Top(ops)) && Precedence(t) <= Precedence(Top(ops))
    then PopHigher(t, output + [Top(ops)], Pop(ops))
    else (output, ops)
  }

  /** The inner loop for `)`: everything above the nearest `(` moves to the
      output. */
  function PopToOpen(output: seq<string>, ops: seq<string>): (seq<string>, seq<string>)
    decreases |ops|
  {
    if ops != [] && Top(ops) != "(" then PopToOpen(output + [Top(ops)], Pop(ops))
    else (output, ops)
  }

  /** The final loop: the stack moves to the output. */
  function Drain(output: seq<string>, ops: seq<string>): seq<string>
    decreases |ops|
  {
    if ops == [] then output else Drain(output + [Top(ops)], Pop(ops))
  }

  /** One pass of the outer loop over token `t`: the new output and stack. */
  function Step(t: string, output: seq<string>, ops: seq<string>): Result<(seq<string>, seq<string>)>
  {
    if IsNumber(t) then Ok((output + [t], ops))
    else if IsOperator(t) then
      var (o, s) := PopHigher(t, output, ops);
      Ok((o, s + [t]))
    else if t == "(" then Ok((output, ops + ["("]))
    else if t == ")" then
      var (o, s) := PopToOpen(output, ops);
      if s == [] then Err(UnmatchedParen) else Ok((o, Pop(s)))
    else Ok((output, ops))
  }

  /** The conversion of the unread tokens `ts` from the given output and
      stack. */
  function Run(ts: seq<string>, output: seq<string>, ops: seq<string>): (r: Result<seq<string>>)
    ensures r.Err? ==> r.error == UnmatchedParen
    decreases |ts|
  {
    if ts == [] then Ok(Drain(output, ops))
    else
      match Step(ts[0], output, ops)
      case Err(e) => Err(e)
      case Ok((o, s)) => Run(ts[1..], o, s)
  }

  /** Running a sequence that starts with `t` is running the rest after
      one step. */
  lemma RunCons(t: string, rest: seq<string>, output: seq<string>, ops: seq<string>)
    requires Step(t, output, ops).Ok?
    ensures Run([t] + rest, output, ops) ==
      Run(rest, Step(t, output, ops).value.0, Step(t, output, ops).value.1)
  {
    assert ([t] + rest)[0] == t && ([t] + rest)[1..] == rest;
  }

  /** The postfix form of a token sequence. */
  function ToPostfix(ts: seq<string>): Result<seq<string>>
  {
    Run(ts, [], [])
  }

  /** shunting_yard, over tokens whose precedence lookup cannot fail
      (every token the tokenizer produces is one). */
  method Convert(tokens: seq<string>) returns (r: Result<seq<string>>)
    requires forall t <- tokens :: OperatorKnown(t)
    ensures r == ToPostfix(tokens)
  {
    var output: seq<string> := [];
    var operators: seq<string> := [];
    for i := 0 to |tokens|
      invariant ToPostfix(tokens) == Run(tokens[i..], output, operators)
    {
      var token := tokens[i];
      assert tokens[i..][0] == token && tokens[i..][1..] == tokens[i + 1..];
      if IsNumber(token) {
        output := output + [token];
      } else if IsOperator(token) {
        ghost var popped := PopHigher(token, output, operators);
        while operators != [] && IsOperator(Top(operators)) && Precedence(token) <= Precedence(Top(operators))
          invariant PopHigher(token, output, operators) == popped
          decreases |operators|
        {
          output := output + [Top(operators)];
          operators := Pop(operators);
        }
        operators := operators + [token];
      } else if token == "(" {
        operators := operators + [token];
      } else if token == ")" {
        ghost var popped := PopToOpen(output, operators);
        while operators != [] && Top(operators) != "("
          invariant PopToOpen(output, operators) == popped
          decreases |operators|
        {
          output := output + [Top(operators)];
          operators := Pop(operators);
        }
        if operators == [] {
          return Err(UnmatchedParen);
        }
        operators := Pop(operators);
      }
    }
    ghost var drained := Drain(output, operators);
    while operators != []
      invariant Drain(output, operators) == drained
      decreases |operators|
    {
      output := output + [Top(operators)];
      operators := Pop(operators);
    }
    return Ok(output);
  }

  // ---------------------------------------------------------------------
  // What the inner loops move

  /** The operator loop pops a top part of the stack, in pop order, made
      only of operators that bind at least as tightly as `t`, and stops at
      the bottom, at a `(`, or at an operator of lower precedence. */
  lemma PopHigherMoves(t: string, output: seq<string>, ops: seq<string>)
    requires IsOperator(t)
    ensures var (o, s) := PopHigher(t, output, ops);
      |s| <= |ops| && s == ops[..|s|] && o == output + Reversed(ops[|s|..]) &&
      (forall k :: |s| <= k < |ops| ==> IsOperator(ops[k]) && Precedence(t) <= Precedence(ops[k])) &&
      (s == [] || !IsOperator(Top(s)) || Precedence(Top(s)) < Precedence(t))
  {
    PopHigherSplits(t, output, ops);
    PopHigherPopsTighter(t, output, ops);
  }

  lemma {:induction false} PopHigherSplits(t: string, output: seq<string>, ops: seq<string>)
    requires IsOperator(t)
    ensures var (o, s) := PopHigher(t, output, ops);
      |s| <= |ops| && s == ops[..|s|] && o == output + Reversed(ops[|s|..]) &&
      (s == [] || !IsOperator(Top(s)) || Precedence(Top(s)) < Precedence(t))
    decreases |ops|
  {
    if ops != [] && IsOperator(Top(ops)) && Precedence(t) <= Precedence(Top(ops)) {
      PopHigherSplits(t, output + [Top(ops)], Pop(ops));
      var (o, s) := PopHigher(t, output + [Top(ops)], Pop(ops));
      var moved := ops[|s|..];
      assert moved != [] && Top(moved) == Top(ops) && Pop(moved) == Pop(ops)[|s|..];
    } else {
      assert ops[|ops|..] == [];
    }
  }

  lemma {:induction false} PopHigherPopsTighter(t: string, output: seq<string>, ops: seq<string>)
    requires IsOperator(t)
    ensures forall k :: |PopHigher(t, output, ops).1| <= k < |ops| ==>
      IsOperator(ops[k]) && Precedence(t) <= Precedence(ops[k])
    decreases |ops|
  {
    if ops != [] && IsOperator(Top(ops)) && Precedence(t) <= Precedence(Top(ops)) {
      PopHigherPopsTighter(t, output + [Top(ops)], Pop(ops));
    }
  }

  /** The `)` loop pops a top part of the stack that holds no `(`, in pop
      order, and stops at the bottom or at a `(`. */
  lemma PopToOpenMoves(output: seq<string>, ops: seq<string>)
    ensures var (o, s) := PopToOpen(output, ops);
      |s| <= |ops| && s == ops[..|s|] && o == output + Reversed(ops[|s|..]) &&
      "(" !in ops[|s|..] && (s == [] || Top(s) == "(")
  {
    PopToOpenSplits(output, ops);
    PopToOpenStopsAtOpen(output, ops);
    var s := PopToOpen(output, ops).1;
    forall x <- ops[|s|..] ensures x != "(" {
      var i :| 0 <= i < |ops| - |s| && ops[|s|..][i] == x;
      assert ops[|s| + i] == x;
    }
  }

  lemma {:induction false} PopToOpenSplits(output: seq<string>, ops: seq<string>)
    ensures var (o, s) := PopToOpen(output, ops);
      |s| <= |ops| && s == ops[..|s|] && o == output + Reversed(ops[|s|..])
    decreases |ops|
  {
    if ops != [] && Top(ops) != "(" {
      PopToOpenSplits(output + [Top(ops)], Pop(ops));
      var (o, s) := PopToOpen(output + [Top(ops)], Pop(ops));
      var moved := ops[|s|..];
      assert moved != [] && Top(moved) == Top(ops) && Pop(moved) == Pop(ops)[|s|..];
    } else {
      assert ops[|ops|..] == [];
    }
  }

  lemma {:induction false} PopToOpenStopsAtOpen(output: seq<string>, ops: seq<string>)
    ensures var s := PopToOpen(output, ops).1;
      |s| <= |ops| && (forall k :: |s| <= k < |ops| ==> ops[k] != "(") && (s == [] || Top(s) == "(")
    decreases |ops|
  {
    if ops != [] && Top(ops) != "(" {
      PopToOpenStopsAtOpen(output + [Top(ops)], Pop(ops));
    }
  }

  /** At the end every remaining stack entry is output, from the top down. */
  lemma {:induction false} DrainPopsAll(output: seq<string>, ops: seq<string>)
    ensures Drain(output, ops) == output + Reversed(ops)
    decreases |ops|
  {
    if ops != [] {
      DrainPopsAll(output + [Top(ops)], Pop(ops));
    }
  }

  // ---------------------------------------------------------------------
  // Contents of the output

  /** Whether a token takes part in the output: it matches the number, the
      operator or the `(` branch. */
  predicate IsKept(t: string)
  {
    IsNumber(t) || IsOperator(t) || t == "("
  }

  /** One `(` for each `)` of `ts`: the parentheses a `)` takes off the
      stack. */
  function MatchedOpens(ts: seq<string>): multiset<string>
  {
    multiset{}["(" := multiset(ts)[")"]]
  }

  /** The operator loop never moves a `(`. */
  lemma {:induction false} PopHigherStopsAtParen(t: string, output: seq<string>, ops: seq<string>, k: int)
    requires IsOperator(t)
    requires 0 <= k < |ops| && ops[k] == "("
    ensures |PopHigher(t, output, ops).1| > k
    decreases |ops|
  {
    if ops != [] && IsOperator(Top(ops)) && Precedence(t) <= Precedence(Top(ops)) {
      assert k < |ops| - 1;
      PopHigherStopsAtParen(t, output + [Top(ops)], Pop(ops), k);
    }
  }

  /** The operator loop moves stacked operators to the output and never
      a `(`. */
  lemma {:induction false} PopHigherCounts(t: string, output: seq<string>, ops: seq<string>)
    requires IsOperator(t)
    ensures var (o, s) := PopHigher(t, output, ops);
      multiset(o) + multiset(s) == multiset(output) + multiset(ops) &&
      multiset(o)["("] == multiset(output)["("]
    decreases |ops|
  {
    if ops != [] && IsOperator(Top(ops)) && Precedence(t) <= Precedence(Top(ops)) {
      PopHigherCounts(t, output + [Top(ops)], Pop(ops));
      PopMultiset(ops);
      assert multiset(output + [Top(ops)]) == multiset(output) + multiset{Top(ops)};
    }
  }

  /** The `)` loop only moves tokens from the stack to the output. */
  lemma PopToOpenKeepsTokens(output: seq<string>, ops: seq<string>)
    ensures var (o, s) := PopToOpen(output, ops);
      multiset(o) + multiset(s) == multiset(output) + multiset(ops)
  {
    PopToOpenSplits(output, ops);
    var (o, s) := PopToOpen(output, ops);
    var moved := ops[|s|..];
    ReversedMultiset(moved);
    assert ops == s + moved;
    assert multiset(o) == multiset(output) + multiset(Reversed(moved));
    assert multiset(ops) == multiset(s) + multiset(moved);
  }

  /** The `)` loop moves no `(` to the output. */
  lemma PopToOpenKeepsOpens(output: seq<string>, ops: seq<string>)
    ensures multiset(PopToOpen(output, ops).0)["("] == multiset(output)["("]
  {
    PopToOpenMoves(output, ops);
    var (o, s) := PopToOpen(output, ops);
    var moved := ops[|s|..];
    ReversedMultiset(moved);
    assert multiset(moved)["("] == 0;
  }

  /** The `)` loop empties the stack exactly when the stack holds no `(`,
      and otherwise stops with a `(` on top. */
  lemma PopToOpenFindsOpen(output: seq<string>, ops: seq<string>)
    ensures var s := PopToOpen(output, ops).1;
      (s == [] <==> multiset(ops)["("] == 0) &&
      (s != [] ==> multiset(s) == multiset(Pop(s)) + multiset{"("})
  {
    PopToOpenMoves(output, ops);
    var (o, s) := PopToOpen(output, ops);
    var moved := ops[|s|..];
    assert ops == s + moved;
    assert multiset(moved)["("] == 0;
    if s != [] {
      PopMultiset(s);
    }
  }

  /** One step moves tokens between output and stack and adds token `t` if
      it is kept; a `)` instead takes one `(` off the stack. No `(` reaches
      the output during a step. */
  lemma StepCounts(t: string, output: seq<string>, ops: seq<string>)
    requires OperatorKnown(t)
    requires Step(t, output, ops).Ok?
    ensures var (o, s) := Step(t, output, ops).value;
      multiset(o) + multiset(s) + MatchedOpens([t]) ==
        multiset(output) + multiset(ops) + multiset(Filter([t], IsKept)) &&
      multiset(o)["("] == multiset(output)["("]
  {
    FilterOne(t, IsKept);
    OperatorIsNotNumber(t);
    ParensAreNotNumbers();
    if t != ")" {
      assert MatchedOpens([t]) == multiset{};
    }
    if IsNumber(t) {
    } else if IsOperator(t) {
      OperatorCounts(t, output, ops);
    } else if t == "(" {
    } else if t == ")" {
      CloseCounts(output, ops);
    }
  }

  /** An operator moves stacked operators to the output and is pushed. */
  lemma OperatorCounts(t: string, output: seq<string>, ops: seq<string>)
    requires IsOperator(t)
    ensures var (o, s) := Step(t, output, ops).value;
      multiset(o) + multiset(s) == multiset(output) + multiset(ops) + multiset{t} &&
      multiset(o)["("] == multiset(output)["("]
  {
    OperatorIsNotNumber(t);
    PopHigherCounts(t, output, ops);
  }

  /** A `)` moves the entries above the nearest `(` to the output and
      takes that `(` off the stack. */
  lemma CloseCounts(output: seq<string>, ops: seq<string>)
    requires Step(")", output, ops).Ok?
    ensures var (o, s) := Step(")", output, ops).value;
      multiset(o) + multiset(s) + MatchedOpens([")"]) == multiset(output) + multiset(ops) &&
      multiset(o)["("] == multiset(output)["("]
  {
    ParensAreNotNumbers();
    PopToOpenKeepsTokens(output, ops);
    PopToOpenKeepsOpens(output, ops);
    PopToOpenFindsOpen(output, ops);
    assert MatchedOpens([")"]) == multiset{"("};
  }

  lemma {:induction false} RunCounts(ts: seq<string>, output: seq<string>, ops: seq<string>)
    requires forall t <- ts :: OperatorKnown(t)
    requires Run(ts, output, ops).Ok?
    ensures multiset(Run(ts, output, ops).value) + MatchedOpens(ts) ==
      multiset(output) + multiset(ops) + multiset(Filter(ts, IsKept))
    decreases |ts|
  {
    if ts == [] {
      DrainPopsAll(output, ops);
      ReversedMultiset(ops);
      assert MatchedOpens(ts) == multiset{};
    } else {
      var t, rest := ts[0], ts[1..];
      assert ts == [t] + rest;
      assert Step(t, output, ops).Ok?;
      var o, s := Step(t, output, ops).value.0, Step(t, output, ops).value.1;
      assert Run(ts, output, ops) == Run(rest, o, s);
      RunCounts(rest, o, s);
      StepCounts(t, output, ops);
      FilterAppend([t], rest, IsKept);
      assert MatchedOpens(ts) == MatchedOpens([t]) + MatchedOpens(rest) by {
        assert multiset(ts) == multiset([t]) + multiset(rest);
      }
      Regroup(multiset(Run(rest, o, s).value), MatchedOpens(rest), MatchedOpens([t]),
        multiset(o) + multiset(s), multiset(output) + multiset(ops),
        multiset(Filter([t], IsKept)), multiset(Filter(rest, IsKept)));
    }
  }

  lemma Regroup<T>(r: multiset<T>, x: multiset<T>, y: multiset<T>, moved: multiset<T>,
                   before: multiset<T>, f: multiset<T>, g: multiset<T>)
    requires r + x == moved + g
    requires moved + y == before + f
    ensures r + (y + x) == before + (f + g)
  {
    forall e ensures (r + (y + x))[e] == (before + (f + g))[e] {
      assert (r + x)[e] == (moved + g)[e];
      assert (moved + y)[e] == (before + f)[e];
    }
  }

  /** Each token occurs in the output as often as in the input if it is
      kept, less one for each `)` if it is `(`. */
  lemma PostfixCount(ts: seq<string>, x: string)
    requires forall t <- ts :: OperatorKnown(t)
    requires ToPostfix(ts).Ok?
    ensures multiset(ToPostfix(ts).value)[x] + MatchedOpens(ts)[x] ==
      if IsKept(x) then multiset(ts)[x] else 0
  {
    RunCounts(ts, [], []);
    FilterCount(ts, IsKept, x);
    var out := ToPostfix(ts).value;
    assert (multiset(out) + MatchedOpens(ts))[x] == multiset(Filter(ts, IsKept))[x];
  }

  /** The output of shunting_yard: every number and every operator of the
      input exactly as often as in the input, no `)`, a `(` only for each one
      left unmatched at the end, and nothing else (tokens that match no
      branch, such as the digit run "10", are dropped). */
  lemma PostfixContents(ts: seq<string>)
    requires forall t <- ts :: OperatorKnown(t)
    requires ToPostfix(ts).Ok?
    ensures var out := ToPostfix(ts).value;
      (forall x :: IsNumber(x) || IsOperator(x) ==> multiset(out)[x] == multiset(ts)[x]) &&
      multiset(out)["("] == multiset(ts)["("] as int - multiset(ts)[")"] &&
      ")" !in out &&
      (forall x <- out :: IsKept(x))
  {
    var out := ToPostfix(ts).value;
    ParensAreNotNumbers();
    forall x | IsNumber(x) || IsOperator(x) ensures multiset(out)[x] == multiset(ts)[x] {
      PostfixCount(ts, x);
    }
    PostfixCount(ts, "(");
    PostfixCount(ts, ")");
    forall x <- out ensures IsKept(x) {
      PostfixCount(ts, x);
    }
  }

  /** Every token of the output is a token of the input. */
  lemma PostfixTokensFromInput(ts: seq<string>)
    requires forall t <- ts :: OperatorKnown(t)
    requires ToPostfix(ts).Ok?
    ensures forall x <- ToPostfix(ts).value :: x in ts
  {
    var out := ToPostfix(ts).value;
    forall x <- out ensures x in ts {
      PostfixCount(ts, x);
      assert x in multiset(out);
      assert x in multiset(ts);
    }
  }

  // ---------------------------------------------------------------------
  // Order of the numbers

  predicate NoNumbers(s: seq<string>)
  {
    forall x <- s :: !IsNumber(x)
  }

  lemma ReversedNoNumbers(s: seq<string>)
    requires NoNumbers(s)
    ensures NoNumbers(Reversed(s))
  {
    ReversedMultiset(s);
    forall x <- Reversed(s) ensures !IsNumber(x) {
      assert x in multiset(Reversed(s));
      assert x in multiset(s);
    }
  }

  /** Moving the top part of a stack without numbers to the output adds no
      number to the output and leaves a stack without numbers. */
  lemma MoveAddsNoNumbers(output: seq<string>, ops: seq<string>, n: nat)
    requires NoNumbers(ops) && n <= |ops|
    ensures NoNumbers(ops[..n])
    ensures Filter(output + Reversed(ops[n..]), IsNumber) == Filter(output, IsNumber)
  {
    var moved := ops[n..];
    forall x <- moved ensures !IsNumber(x) {
      var i :| 0 <= i < |moved| && moved[i] == x;
      assert ops[n + i] == x;
    }
    ReversedNoNumbers(moved);
    FilterNone(Reversed(moved), IsNumber);
    FilterAppend(output, Reversed(moved), IsNumber);
    forall x <- ops[..n] ensures !IsNumber(x) {
      var i :| 0 <= i < n && ops[..n][i] == x;
      assert ops[i] == x;
    }
  }

  lemma StepNumberOrder(t: string, output: seq<string>, ops: seq<string>)
    requires OperatorKnown(t)
    requires NoNumbers(ops)
    requires Step(t, output, ops).Ok?
    ensures var (o, s) := Step(t, output, ops).value;
      NoNumbers(s) && Filter(o, IsNumber) == Filter(output, IsNumber) + Filter([t], IsNumber)
  {
    OperatorIsNotNumber(t);
    ParensAreNotNumbers();
    assert Filter([t], IsNumber) == (if IsNumber(t) then [t] else []) by {
      assert [t][1..] == [];
    }
    if IsNumber(t) {
      FilterAppend(output, [t], IsNumber);
    } else if IsOperator(t) {
      PopHigherMoves(t, output, ops);
      var (o, s) := PopHigher(t, output, ops);
      MoveAddsNoNumbers(output, ops, |s|);
    } else if t == ")" {
      PopToOpenMoves(output, ops);
      var (o, s) := PopToOpen(output, ops);
      MoveAddsNoNumbers(output, ops, |s|);
      if s != [] {
        forall x <- Pop(s) ensures !IsNumber(x) {
          assert x in s;
        }
      }
    }
  }

  lemma {:induction false} RunNumberOrder(ts: seq<string>, output: seq<string>, ops: seq<string>)
    requires forall t <- ts :: OperatorKnown(t)
    requires NoNumbers(ops)
    requires Run(ts, output, ops).Ok?
    ensures Filter(Run(ts, output, ops).value, IsNumber) == Filter(output, IsNumber) + Filter(ts, IsNumber)
    decreases |ts|
  {
    if ts == [] {
      DrainPopsAll(output, ops);
      MoveAddsNoNumbers(output, ops, 0);
      assert ops[0..] == ops;
    } else {
      var t, rest := ts[0], ts[1..];
      assert ts == [t] + rest;
      assert Step(t, output, ops).Ok?;
      var o, s := Step(t, output, ops).value.0, Step(t, output, ops).value.1;
      assert Run(ts, output, ops) == Run(rest, o, s);
      StepNumberOrder(t, output, ops);
      RunNumberOrder(rest, o, s);
      FilterAppend([t], rest, IsNumber);
      assert Filter(output, IsNumber) + Filter([t], IsNumber) + Filter(rest, IsNumber) ==
        Filter(output, IsNumber) + Filter(ts, IsNumber);
    }
  }

  /** The numbers appear in the output in the order of the input. */
  lemma PostfixKeepsNumberOrder(ts: seq<string>)
    requires forall t <- ts :: OperatorKnown(t)
    requires ToPostfix(ts).Ok?
    ensures Filter(ToPostfix(ts).value, IsNumber) == Filter(ts, IsNumber)
  {
    RunNumberOrder(ts, [], []);
  }

  // ---------------------------------------------------------------------
  // When a `)` finds no `(`

  /** A step fails exactly for a `)` when the stack holds no `(`. */
  lemma StepFailsIff(t: string, output: seq<string>, ops: seq<string>)
    requires OperatorKnown(t)
    ensures Step(t, output, ops).Err? <==> t == ")" && multiset(ops)["("] == 0
    ensures Step(t, output, ops).Err? ==> Step(t, output, ops).error == UnmatchedParen
  {
    ParensAreNotNumbers();
    if t == ")" {
      PopToOpenFindsOpen(output, ops);
    }
  }

  /** A step changes the number of `(` on the stack by what `t` opens or
      closes. */
  lemma StepDepth(t: string, output: seq<string>, ops: seq<string>)
    requires OperatorKnown(t)
    requires Step(t, output, ops).Ok?
    ensures multiset(Step(t, output, ops).value.1)["("] ==
      multiset(ops)["("] as int + multiset([t])["("] - multiset([t])[")"]
  {
    StepCounts(t, output, ops);
    FilterCount([t], IsKept, "(");
    var (o, s) := Step(t, output, ops).value;
    assert (multiset(o) + multiset(s) + MatchedOpens([t]))["("] ==
      (multiset(output) + multiset(ops) + multiset(Filter([t], IsKept)))["("];
  }

  /** How far the open parentheses of a prefix outnumber its closing ones. */
  function Depth(p: seq<string>): int
  {
    multiset(p)["("] as int - multiset(p)[")"]
  }

  /** Starting from `d` open parentheses, some prefix of `ts` closes more
      than are open. */
  predicate Dips(d: int, ts: seq<string>)
  {
    exists k :: 0 <= k <= |ts| && d + Depth(ts[..k]) < 0
  }

  lemma DepthShift(ts: seq<string>, k: nat)
    requires 0 < k <= |ts|
    ensures Depth(ts[..k]) == Depth([ts[0]]) + Depth(ts[1..][..k - 1])
  {
    assert ts[..k] == [ts[0]] + ts[1..][..k - 1];
  }

  /** Dipping, one token at a time. */
  lemma DipsCons(d: int, ts: seq<string>)
    requires ts != []
    ensures Dips(d, ts) <==> d < 0 || Dips(d + Depth([ts[0]]), ts[1..])
  {
    var d' := d + Depth([ts[0]]);
    assert ts[..0] == [];
    if Dips(d, ts) {
      var k :| 0 <= k <= |ts| && d + Depth(ts[..k]) < 0;
      if k > 0 {
        DepthShift(ts, k);
        assert d' + Depth(ts[1..][..k - 1]) < 0;
      }
    }
    if Dips(d', ts[1..]) {
      var k :| 0 <= k <= |ts[1..]| && d' + Depth(ts[1..][..k]) < 0;
      DepthShift(ts, k + 1);
      assert d + Depth(ts[..k + 1]) < 0;
    }
  }

  lemma {:induction false} RunErrorIff(ts: seq<string>, output: seq<string>, ops: seq<string>)
    requires forall t <- ts :: OperatorKnown(t)
    ensures Run(ts, output, ops).Err? <==> Dips(multiset(ops)["("], ts)
    ensures Run(ts, output, ops).Err? ==> Run(ts, output, ops).error == UnmatchedParen
    decreases |ts|
  {
    var d := multiset(ops)["("];
    if ts == [] {
      assert ts[..0] == [];
    } else {
      var t := ts[0];
      DipsCons(d, ts);
      StepFailsIff(t, output, ops);
      if Step(t, output, ops).Err? {
        assert ts[..1] == [t];
        assert d + Depth(ts[..1]) < 0;
      } else {
        var (o, s) := Step(t, output, ops).value;
        StepDepth(t, output, ops);
        RunErrorIff(ts[1..], o, s);
      }
    }
  }

  /** shunting_yard fails exactly when some prefix of the input closes more
      parentheses than it opens: a `)` then pops an empty operator list. */
  lemma PostfixErrorIff(ts: seq<string>)
    requires forall t <- ts :: OperatorKnown(t)
    ensures ToPostfix(ts).Err? <==>
      exists k :: 0 <= k <= |ts| && multiset(ts[..k])[")"] > multiset(ts[..k])["("]
    ensures ToPostfix(ts).Err? ==> ToPostfix(ts).error == UnmatchedParen
  {
    RunErrorIff(ts, [], []);
  }

  // ---------------------------------------------------------------------
  // Precedence on the stack

  /** Between two neighbouring stacked operators, the upper one binds
      strictly tighter. */
  predicate StackOrdered(ops: seq<string>)
    decreases |ops|
  {
    |ops| <= 1 ||
    (StackOrdered(Pop(ops)) &&
     (IsOperator(Top(ops)) && IsOperator(Top(Pop(ops))) ==> Precedence(Top(Pop(ops))) < Precedence(Top(ops))))
  }

  lemma {:induction false} StackOrderedPrefix(ops: seq<string>, n: nat)
    requires StackOrdered(ops) && n <= |ops|
    ensures StackOrdered(ops[..n])
    decreases |ops|
  {
    if n < |ops| {
      assert ops[..n] == Pop(ops)[..n];
      StackOrderedPrefix(Pop(ops), n);
    } else {
      assert ops[..n] == ops;
    }
  }

  /** Every step keeps the stack ordered: an incoming operator first sends
      out every stacked operator of greater or equal precedence, so equal
      precedence associates to the left. */
  lemma StepKeepsStackOrdered(t: string, output: seq<string>, ops: seq<string>)
    requires OperatorKnown(t)
    requires StackOrdered(ops)
    requires Step(t, output, ops).Ok?
    ensures StackOrdered(Step(t, output, ops).value.1)
  {
    ParensAreNotNumbers();
    OperatorIsNotNumber(t);
    if IsNumber(t) {
    } else if IsOperator(t) {
      PopHigherMoves(t, output, ops);
      var (o, s) := PopHigher(t, output, ops);
      StackOrderedPrefix(ops, |s|);
      assert Pop(s + [t]) == s;
    } else if t == "(" {
      assert Pop(ops + ["("]) == ops;
    } else if t == ")" {
      PopToOpenMoves(output, ops);
      var (o, s) := PopToOpen(output, ops);
      StackOrderedPrefix(ops, |s|);
      StackOrderedPrefix(s, |s| - 1);
    }
  }

  /** The output and stack once the outer loop has read `ts`, before the
      final loop drains the stack. */
  function Scan(ts: seq<string>, output: seq<string>, ops: seq<string>): Result<(seq<string>, seq<string>)>
    decreases |ts|
  {
    if ts == [] then Ok((output, ops))
    else
      match Step(ts[0], output, ops)
      case Err(e) => Err(e)
      case Ok((o, s)) => Scan(ts[1..], o, s)
  }

  /** The conversion is the outer loop followed by the final loop. */
  lemma {:induction false} RunIsScanThenDrain(ts: seq<string>, output: seq<string>, ops: seq<string>)
    ensures Run(ts, output, ops) ==
      match Scan(ts, output, ops)
      case Err(e) => Err(e)
      case Ok((o, s)) => Ok(Drain(o, s))
    decreases |ts|
  {
    if ts != [] && Step(ts[0], output, ops).Ok? {
      var (o, s) := Step(ts[0], output, ops).value;
      RunIsScanThenDrain(ts[1..], o, s);
    }
  }

  lemma {:induction false} ScanKeepsStackOrdered(ts: seq<string>, output: seq<string>, ops: seq<string>)
    requires forall t <- ts :: OperatorKnown(t)
    requires StackOrdered(ops)
    requires Scan(ts, output, ops).Ok?
    ensures StackOrdered(Scan(ts, output, ops).value.1)
    decreases |ts|
  {
    if ts != [] {
      StepKeepsStackOrdered(ts[0], output, ops);
      var (o, s) := Step(ts[0], output, ops).value;
      ScanKeepsStackOrdered(ts[1..], o, s);
    }
  }

  /** At every point of the outer loop, each stacked operator binds
      strictly more tightly than the operator directly below it. */
  lemma PostfixStacksOrdered(ts: seq<string>, k: nat)
    requires forall t <- ts :: OperatorKnown(t)
    requires k <= |ts| && Scan(ts[..k], [], []).Ok?
    ensures StackOrdered(Scan(ts[..k], [], []).value.1)
  {
    ScanKeepsStackOrdered(ts[..k], [], []);
  }
}
