/**
 * Precedence and associativity on the smallest inputs where they show,
 * and the inputs on which the substring number test makes a difference.
 */
module Examples {
  import opened Tokens
  import Tokenizer
  import ShuntingYard
  import opened Ast

  /** Contiguous pieces of "1234567890" are numbers; "10" and "21" are
      not, though they are made of digits. */
  lemma NumberTestIsSubstringTest()
    ensures IsNumber("12") && IsNumber("90")
    ensures !IsNumber("10") && !IsNumber("21")
  {
    TwoCharacterNumber("12");
    TwoCharacterNumber("90");
    TwoCharacterNumber("10");
    TwoCharacterNumber("21");
  }

  lemma LexLastDigit(c: char)
    requires c in Digits
    ensures Tokenizer.Lex([c], "") == Ok([[c]])
  {
    assert [c][1..] == [];
    assert "" + [c] == [c];
    assert Tokenizer.Lex([], [c]) == Ok([[c]]);
  }

  lemma LexSymbolThenDigit(number: string, p: char, c: char)
    requires number != "" && p in Symbols && c in Digits
    ensures Tokenizer.Lex([p, c], number) == Ok([number, [p], [c]])
  {
    assert p !in Digits;
    assert [p, c][0] == p && [p, c][1..] == [c];
    LexLastDigit(c);
    assert Tokenizer.Flush(number) + [[p]] == [number, [p]];
    assert [number, [p]] + [[c]] == [number, [p], [c]];
  }

  /** Digits next to each other form one token and a symbol ends it: the
      line `a b p c` (no spaces) has the tokens `ab`, `p` and `c`. */
  lemma DigitRunExample(a: char, b: char, p: char, c: char)
    requires a in Digits && b in Digits && c in Digits && p in Symbols
    ensures Tokenizer.TokensOf([a, b, p, c]) == Ok([[a, b], [p], [c]])
  {
    var line := [a, b, p, c];
    assert line[0] == a && line[1..] == [b, p, c];
    assert [b, p, c][0] == b && [b, p, c][1..] == [p, c];
    assert "" + [a] == [a] && [a] + [b] == [a, b];
    LexSymbolThenDigit([a, b], p, c);
    assert Tokenizer.Lex([b, p, c], [a]) == Tokenizer.Lex([p, c], [a, b]);
    assert Tokenizer.Lex(line, "") == Tokenizer.Lex([b, p, c], [a]);
  }

  /** A space between two digits separates them: the line `c d` has two
      number tokens where `cd` has one. */
  lemma SpaceSeparatesNumbers(c: char, d: char)
    requires c in Digits && d in Digits
    ensures Tokenizer.TokensOf([c, ' ', d]) == Ok([[c], [d]])
  {
    assert [c, ' ', d] == [c] + " " + [d];
    Tokenizer.TokensSpace([c], [d]);
    LexLastDigit(c);
    LexLastDigit(d);
    assert [[c]] + [[d]] == [[c], [d]];
  }

  // One step of the shunting-yard loop, by kind of token.

  lemma StepNumber(t: string, output: seq<string>, ops: seq<string>, output': seq<string>)
    requires IsNumber(t) && output' == output + [t]
    ensures ShuntingYard.Step(t, output, ops) == Ok((output', ops))
  {
  }

  lemma StepPush(t: string, output: seq<string>, ops: seq<string>, ops': seq<string>)
    requires IsOperator(t) && ops' == ops + [t]
    requires ops == [] || !IsOperator(ShuntingYard.Top(ops)) ||
      Precedence(t) > Precedence(ShuntingYard.Top(ops))
    ensures ShuntingYard.Step(t, output, ops) == Ok((output, ops'))
  {
    OperatorIsNotNumber(t);
  }

  lemma StepPopThenPush(t: string, output: seq<string>, op: string, output': seq<string>)
    requires IsOperator(t) && IsOperator(op) && Precedence(t) <= Precedence(op)
    requires output' == output + [op]
    ensures ShuntingYard.Step(t, output, [op]) == Ok((output', [t]))
  {
    OperatorIsNotNumber(t);
    assert ShuntingYard.Top([op]) == op && ShuntingYard.Pop([op]) == [];
    assert ShuntingYard.PopHigher(t, output, [op]) == (output', []);
    assert [] + [t] == [t];
  }

  lemma StepSkip(x: string, output: seq<string>, ops: seq<string>)
    requires OperatorKnown(x) && !IsNumber(x) && !IsOperator(x) && x != "(" && x != ")"
    ensures ShuntingYard.Step(x, output, ops) == Ok((output, ops))
  {
  }

  /** The end of the input: the stack goes to the output, top first. */
  lemma DrainOne(output: seq<string>, p: string, output': seq<string>)
    requires output' == output + [p]
    ensures ShuntingYard.Drain(output, [p]) == output'
  {
    assert ShuntingYard.Pop([p]) == [];
  }

  lemma DrainTwo(output: seq<string>, p: string, q: string, output': seq<string>)
    requires output' == output + [q, p]
    ensures ShuntingYard.Drain(output, [p, q]) == output'
  {
    assert ShuntingYard.Top([p, q]) == q && ShuntingYard.Pop([p, q]) == [p];
    assert ShuntingYard.Top([p]) == p && ShuntingYard.Pop([p]) == [];
    assert ShuntingYard.Drain(output + [q] + [p], []) == output + [q] + [p];
    assert ShuntingYard.Drain(output + [q], [p]) == output + [q] + [p];
    assert output + [q] + [p] == output';
  }

  /** A run of the shunting-yard loop given as the output and stack after
      each token. */
  lemma {:induction false} RunTrace(ts: seq<string>, outs: seq<seq<string>>, stacks: seq<seq<string>>)
    requires |outs| == |ts| + 1 && |stacks| == |ts| + 1
    requires forall i :: 0 <= i < |ts| ==>
      ShuntingYard.Step(ts[i], outs[i], stacks[i]) == Ok((outs[i + 1], stacks[i + 1]))
    ensures ShuntingYard.Run(ts, outs[0], stacks[0]) == Ok(ShuntingYard.Drain(outs[|ts|], stacks[|ts|]))
    decreases |ts|
  {
    if ts != [] {
      assert ShuntingYard.Step(ts[0], outs[0], stacks[0]) == Ok((outs[1], stacks[1]));
      RunTrace(ts[1..], outs[1..], stacks[1..]);
    }
  }

  /** A run over five tokens, one step at a time. */
  lemma RunFive(ts: seq<string>, outs: seq<seq<string>>, stacks: seq<seq<string>>)
    requires |ts| == 5 && |outs| == 6 && |stacks| == 6
    requires ShuntingYard.Step(ts[0], outs[0], stacks[0]) == Ok((outs[1], stacks[1]))
    requires ShuntingYard.Step(ts[1], outs[1], stacks[1]) == Ok((outs[2], stacks[2]))
    requires ShuntingYard.Step(ts[2], outs[2], stacks[2]) == Ok((outs[3], stacks[3]))
    requires ShuntingYard.Step(ts[3], outs[3], stacks[3]) == Ok((outs[4], stacks[4]))
    requires ShuntingYard.Step(ts[4], outs[4], stacks[4]) == Ok((outs[5], stacks[5]))
    ensures ShuntingYard.Run(ts, outs[0], stacks[0]) == Ok(ShuntingYard.Drain(outs[5], stacks[5]))
  {
    forall i | 0 <= i < 5
      ensures ShuntingYard.Step(ts[i], outs[i], stacks[i]) == Ok((outs[i + 1], stacks[i + 1]))
    {
      assert i == 0 || i == 1 || i == 2 || i == 3 || i == 4;
    }
    RunTrace(ts, outs, stacks);
  }

  /** An operator that binds tighter than the one before it is applied
      first: `a p b q c` becomes `a b c q p`. */
  lemma TighterOperatorFirst(a: string, p: string, b: string, q: string, c: string)
    requires IsNumber(a) && IsNumber(b) && IsNumber(c)
    requires IsOperator(p) && IsOperator(q) && Precedence(p) < Precedence(q)
    ensures ShuntingYard.ToPostfix([a, p, b, q, c]) == Ok([a, b, c, q, p])
  {
    var ts := [a, p, b, q, c];
    var outs := [[], [a], [a], [a, b], [a, b], [a, b, c]];
    var stacks := [[], [], [p], [p], [p, q], [p, q]];
    StepNumber(a, [], [], [a]);
    StepPush(p, [a], [], [p]);
    StepNumber(b, [a], [p], [a, b]);
    StepPush(q, [a, b], [p], [p, q]);
    StepNumber(c, [a, b], [p, q], [a, b, c]);
    RunFive(ts, outs, stacks);
    DrainTwo([a, b, c], p, q, [a, b, c, q, p]);
  }

  /** An operator that binds no tighter than the one before it waits for
      it: `a p b q c` becomes `a b p c q`, so equal precedence associates to
      the left. */
  lemma EarlierOperatorFirst(a: string, p: string, b: string, q: string, c: string)
    requires IsNumber(a) && IsNumber(b) && IsNumber(c)
    requires IsOperator(p) && IsOperator(q) && Precedence(q) <= Precedence(p)
    ensures ShuntingYard.ToPostfix([a, p, b, q, c]) == Ok([a, b, p, c, q])
  {
    var ts := [a, p, b, q, c];
    var outs := [[], [a], [a], [a, b], [a, b, p], [a, b, p, c]];
    var stacks := [[], [], [p], [p], [q], [q]];
    StepNumber(a, [], [], [a]);
    StepPush(p, [a], [], [p]);
    StepNumber(b, [a], [p], [a, b]);
    StepPopThenPush(q, [a, b], p, [a, b, p]);
    StepNumber(c, [a, b, p], [q], [a, b, p, c]);
    RunFive(ts, outs, stacks);
    DrainOne([a, b, p, c], q, [a, b, p, c, q]);
  }

  /** A leading token that matches no branch of shunting_yard, such as
      "10", is dropped: `x p b q c` becomes `b p c q`, in which build_ast
      finds the first operator with a single operand. */
  lemma DroppedFirstNumber(x: string, p: string, b: string, q: string, c: string)
    requires OperatorKnown(x) && !IsNumber(x) && !IsOperator(x) && x != "(" && x != ")"
    requires IsNumber(b) && IsNumber(c)
    requires IsOperator(p) && IsOperator(q) && Precedence(q) <= Precedence(p)
    ensures ShuntingYard.ToPostfix([x, p, b, q, c]) == Ok([b, p, c, q])
    ensures ToTree([b, p, c, q]) == Err(MissingOperand)
  {
    var ts := [x, p, b, q, c];
    var outs := [[], [], [], [b], [b, p], [b, p, c]];
    var stacks := [[], [], [p], [p], [q], [q]];
    StepSkip(x, [], []);
    StepPush(p, [], [], [p]);
    StepNumber(b, [], [p], [b]);
    StepPopThenPush(q, [b], p, [b, p]);
    StepNumber(c, [b, p], [q], [b, p, c]);
    RunFive(ts, outs, stacks);
    DrainOne([b, p, c], q, [b, p, c, q]);
    OneOperandFirst(b, p, c, q);
  }

  /** build_ast on `b p c q`: the first operator finds one node. */
  lemma OneOperandFirst(b: string, p: string, c: string, q: string)
    requires IsNumber(b) && IsOperator(p)
    ensures ToTree([b, p, c, q]) == Err(MissingOperand)
  {
    OperatorTakesOperatorBranch(p);
    var ts := [b, p, c, q];
    assert Starves(0, ts) by {
      assert ts[..1] == [b];
      FilterOne(b, IsNumber);
      FilterOne(b, IsOperatorToken);
      assert Balance(ts[..1]) == 1;
    }
    TreeMissingOperandIff(ts);
  }

  /** "1 + 2 * 4" becomes `1 2 4 * +`, not the `1 2 + 4 *` the comment
      above shunting_yard shows. */
  lemma SumOfProductExample()
    ensures ShuntingYard.ToPostfix(["1", "+", "2", "*", "4"]) == Ok(["1", "2", "4", "*", "+"])
  {
    assert IsNumber("1") by { ContainsChar(Digits, '1'); }
    assert IsNumber("2") by { ContainsChar(Digits, '2'); }
    assert IsNumber("4") by { ContainsChar(Digits, '4'); }
    assert IsOperator("+") && IsOperator("*") && Precedence("+") < Precedence("*");
    TighterOperatorFirst("1", "+", "2", "*", "4");
  }

  /** Reading the `-` of "2 * ( 3 + 4 - 5 )": the operator loop pops the
      `+` above the `(` and stops there, leaving the `*` below the group on
      the stack although it binds more tightly than `-`. */
  lemma GroupShieldsOuterOperator()
    ensures ShuntingYard.PopHigher("-", [], ["*", "(", "+"]) == (["+"], ["*", "("])
  {
    assert ShuntingYard.Top(["*", "(", "+"]) == "+";
    assert ShuntingYard.Pop(["*", "(", "+"]) == ["*", "("];
    assert ShuntingYard.Top(["*", "("]) == "(";
    assert !IsOperator("(");
    assert [] + ["+"] == ["+"];
  }

  /** "1 - 2 - 3" becomes `1 2 - 3 -`. */
  lemma DifferenceChainExample()
    ensures ShuntingYard.ToPostfix(["1", "-", "2", "-", "3"]) == Ok(["1", "2", "-", "3", "-"])
  {
    assert IsNumber("1") by { ContainsChar(Digits, '1'); }
    assert IsNumber("2") by { ContainsChar(Digits, '2'); }
    assert IsNumber("3") by { ContainsChar(Digits, '3'); }
    assert IsOperator("-");
    EarlierOperatorFirst("1", "-", "2", "-", "3");
  }

  /** "10 - 3 - 2" loses its "10": the postfix form starts at "3". */
  lemma LeadingTenExample()
    ensures ShuntingYard.ToPostfix(["10", "-", "3", "-", "2"]) == Ok(["3", "-", "2", "-"])
  {
    assert !IsNumber("10") by { NumberTestIsSubstringTest(); }
    assert OperatorKnown("10") by { OperatorTestOnShapedTokens("10"); }
    assert IsNumber("3") by { ContainsChar(Digits, '3'); }
    assert IsNumber("2") by { ContainsChar(Digits, '2'); }
    assert !IsOperator("10") && IsOperator("-");
    DroppedFirstNumber("10", "-", "3", "-", "2");
  }

  /** ... and build_ast then finds one operand for the first "-". */
  lemma LeadingTenHasNoTree()
    ensures ToTree(["3", "-", "2", "-"]) == Err(MissingOperand)
  {
    assert IsNumber("3") by { ContainsChar(Digits, '3'); }
    OneOperandFirst("3", "-", "2", "-");
  }

  /** A `)` without a `(` before it. */
  lemma UnmatchedParenExample()
    ensures ShuntingYard.ToPostfix(["1", "+", "2", ")"]) == Err(UnmatchedParen)
  {
    ShuntingYard.PostfixErrorIff(["1", "+", "2", ")"]);
    var ts := ["1", "+", "2", ")"];
    assert ts[..4] == ts;
    assert multiset(ts)[")"] == 1 && multiset(ts)["("] == 0;
  }
}
