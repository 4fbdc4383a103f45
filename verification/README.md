# A verified model of calculator.py

`calculator.py` is a small command-line calculator. It reads a line, then:

- `tokenize` cuts the line into string tokens;
- `shunting_yard` turns the infix tokens into postfix, using an operator stack and a precedence table;
- `build_ast` builds a binary `Node` tree from the postfix tokens, using a node stack;
- `calculate` evaluates the tree recursively.

This project models those four stages and the `Node` record in Dafny and proves what each stage does.

The modules follow the stages:

| file | module | models |
|---|---|---|
| `tokens.dfy` | `Tokens` | the token tests the stages share (Python's substring `in`), the precedence table, and the error kinds |
| `tokenizer.dfy` | `Tokenizer` | `tokenize` |
| `shunting_yard.dfy` | `ShuntingYard` | `shunting_yard` |
| `ast.dfy` | `Ast` | `Node` and `build_ast` |
| `calculator.dfy` | `Calculator` | `calculate` |
| `expressions.dfy` | `Expressions` | infix expressions as they are written, with the parentheses and the precedence that make them read as a tree |
| `pipeline.dfy` | `Pipeline` | the stages composed as the read-evaluate loop composes them |
| `examples.dfy` | `Examples` | traces proved on the smallest inputs where precedence, associativity and the substring number test show |

`tokenize`, `shunting_yard` and `build_ast` work step by step, so each is an imperative method (`Tokenizer.Tokenize`, `ShuntingYard.Convert`, `Ast.BuildAst`). Each method:

- has the same loops as the source, over `seq` variables for the lists it appends to and pops from;
- is proved equal to a recursive specification function that performs one loop pass per character for `TokensOf`, and one per token for `ToPostfix` and `ToTree`.

The properties are proved as lemmas about those functions. `calculate` is pure recursion and is a function.

The central result concerns any expression whose parentheses and precedence agree with a tree, with equal precedence grouping to the left, and whose numbers all pass the source's substring number test (`Expressions.Consistent`). This covers the fully parenthesised and the minimally parenthesised writing of a tree, and every writing in between. It does not cover `10 - 3 - 2`, whose `10` fails the number test. For each such expression:

- `shunting_yard` produces the tree's post-order reading (`Expressions.WrittenToPostfix`);
- from its tokens, `shunting_yard`, `build_ast` and `calculate` compute the tree's value (`Pipeline.ExpressionValue`);
- written as a line with one space between tokens, `tokenize` gives back its tokens and the whole pipeline computes the tree's value (`Pipeline.LineValue`).

A few points about how the source's behaviour is represented:

- **Substring tests.** Python's `token in '1234567890'` is a substring test, and the model keeps it (`Tokens.Contains`). `"12"` and `"90"` therefore count as numbers, while `"10"` and `"21"` do not. `shunting_yard` silently drops a token that matches no branch, so `10 - 3 - 2` loses its `10`, and `build_ast` then pops an empty stack.
- **Errors.** A failure becomes an `Err` with its own error kind:
  - `InvalidCharacter`: `tokenize` returns `None`;
  - `UnmatchedParen`: the pop of an empty operator list;
  - `MissingOperand`: the pop of an empty node stack;
  - `EmptyExpression`: `build_ast` returns `None`;
  - `DivisionByZero`: a zero divisor in `calculate`.
- **Precedence.** An incoming operator pops stacked operators from the top while the top is an operator of greater or equal precedence, stopping at a `(` or a looser operator, so `1 + 2 * 4` becomes `1 2 4 * +`. The comment above `shunting_yard` (calculator.py:8-9) shows `1 2 + 4 *` instead; the model follows the code.

## Model

| member | source | states |
|---|---|---|
| Tokens.Contains | calculator.py:16 | Python's substring `in` on strings: `t` occurs as a contiguous part of `hay`, the empty string included |
| Tokens.IsNumber | calculator.py:16 | the number test `t in '1234567890'` used at lines 16, 39 and 75, a substring test and not a digit test |
| Tokens.Precedence | calculator.py:13 | the precedence table: `+` and `-` are 1, `*` and `/` are 2, defined on the four operators only, like the dictionary's keys |
| Tokens.ContainsChar | calculator.py:55-57 | a one-character string passes the substring test exactly when the character occurs in the searched string |
| Tokens.TwoCharacterNumber | calculator.py:16 | a two-character token is a number exactly when it is two consecutive digits of `1234567890` in ascending order, or `90` |
| Tokens.OperatorTestOnShapedTokens | calculator.py:18-19 | on tokens of the shape the tokenizer emits, the substring test against `+-*/` accepts exactly the four operators, and a number is a non-empty digit run |
| Tokens.OperatorIsNotNumber | calculator.py:16-18 | no operator passes the number test, so operators always reach the operator branch |
| Tokens.ParensAreNotNumbers | calculator.py:16-25 | `(` and `)` fail the number test and reach their own branches |
| Tokens.ShapedTokensKnown | calculator.py:18-20 | every token of the shape tokenize emits that reaches the operator branch is a key of the precedence table, so the lookup at line 20 cannot fail |
| Tokenizer.Lex | calculator.py:54-71 | one pass of the scan per character, with the number buffer as parameter: a digit extends the buffer, an operator or parenthesis flushes it and is its own token, a space flushes it, any other character fails; the end flushes it |
| Tokenizer.TokensOf | calculator.py:51-71 | tokenize: the scan started with an empty buffer |
| Tokenizer.Tokenize | calculator.py:51-71 | the scan with its number buffer returns exactly the token list the per-character specification `TokensOf` gives |
| Tokenizer.LexErrorIff | calculator.py:54-68 | from any point of the scan, it fails exactly when the unread part holds a character that is not a digit, operator, parenthesis or space, and the error names the first such character |
| Tokenizer.TokenizeErrorIff | calculator.py:54-68 | tokenize returns no tokens exactly when the line holds a disallowed character, and reports the first one |
| Tokenizer.BlankLineHasNoTokens | calculator.py:51-71 | a line made only of spaces, including the empty line, gives the empty token list |
| Tokenizer.LexConcat | calculator.py:55-70 | the tokens produced from any point of the scan, joined together, are the pending number followed by the unread text without its spaces |
| Tokenizer.TokensConcat | calculator.py:55-70 | on success, the tokens joined together are the line with its spaces removed, in order |
| Tokenizer.LexShape | calculator.py:55-70 | every token produced from a digit-only buffer is one character of `+-*/()` or a non-empty run of digits |
| Tokenizer.TokensShape | calculator.py:55-70 | every token of a line is one character of `+-*/()` or a non-empty run of digits |
| Tokenizer.LexSpace | calculator.py:62-65 | a space ends the pending number: scanning `a`, a space and `b` gives the tokens of `a` followed by those of `b` scanned afresh, and it fails where the scan of `a` fails, or else where that of `b` fails |
| Tokenizer.TokensSpace | calculator.py:62-65 | the tokens of a line `a`, space, `b` are those of `a` followed by those of `b`, and the first invalid character is reported |
| Tokenizer.LexDigits | calculator.py:55-70 | a run of digits read after a pending number extends it into one token, flushed at the end |
| Tokenizer.OneToken | calculator.py:51-71 | a single token of the tokenizer's shape, alone on a line, comes back as itself |
| Tokenizer.SpacedTokens | calculator.py:51-71 | round trip: tokens of the tokenizer's shape joined with one space between them are tokenized back into the same list |
| Tokenizer.LexMaximal | calculator.py:55-61 | without spaces in the unread text, no two neighbouring tokens are both digit runs |
| Tokenizer.TokensMaximal | calculator.py:55-61 | on a line without spaces, every digit run is maximal: no two neighbouring tokens are both digit runs |
| ShuntingYard.PopHigher | calculator.py:19-22 | the operator loop: while the top is an operator of greater or equal precedence than the incoming one, pop it onto the output |
| ShuntingYard.PopToOpen | calculator.py:26-27 | the `)` loop: pop onto the output until a `(` is on top or the stack is empty |
| ShuntingYard.Drain | calculator.py:29-30 | the final loop: pop the whole stack onto the output, top first |
| ShuntingYard.Step | calculator.py:16-28 | one pass of the outer loop: a number goes to the output, an operator pops higher operators and is pushed, `(` is pushed, `)` pops to the `(` and discards it or fails on an empty stack, and any other token is dropped |
| ShuntingYard.ToPostfix | calculator.py:10-31 | shunting_yard: all passes from empty output and stack, then the final loop |
| ShuntingYard.Run | calculator.py:15-31 | the only way the conversion fails is an unmatched `)` |
| ShuntingYard.Convert | calculator.py:10-31 | the method, with its inner `while` loops over the operator list, returns exactly the specification `ToPostfix` |
| ShuntingYard.PopHigherMoves | calculator.py:19-22 | the operator loop pops a top part of the stack onto the output in pop order; every popped entry is an operator of greater or equal precedence than the incoming one; the loop stops at the bottom, at a `(`, or at an operator of lower precedence |
| ShuntingYard.PopToOpenMoves | calculator.py:26-27 | the `)` loop pops everything above the nearest `(` onto the output in pop order, and stops with a `(` on top or an empty stack |
| ShuntingYard.DrainPopsAll | calculator.py:29-30 | the final loop appends the whole stack to the output, top first |
| ShuntingYard.PopHigherStopsAtParen | calculator.py:19-21 | the operator loop never pops a `(` or anything below it |
| ShuntingYard.PopHigherCounts | calculator.py:19-22 | the operator loop loses and creates no token, and moves no `(` to the output |
| ShuntingYard.PopToOpenKeepsTokens | calculator.py:26-27 | the `)` loop loses and creates no token |
| ShuntingYard.PopToOpenKeepsOpens | calculator.py:26-27 | the `)` loop moves no `(` to the output |
| ShuntingYard.PopToOpenFindsOpen | calculator.py:26-28 | after the `)` loop, the stack is empty exactly when it held no `(`, and otherwise a `(` is on top for line 28 to discard |
| ShuntingYard.StepCounts | calculator.py:15-28 | one pass keeps every token on the output or stack, adds the token read if it matches a branch, and for `)` removes one `(` |
| ShuntingYard.RunCounts | calculator.py:15-31 | over a whole run, the output holds the initial output and stack plus the kept tokens, less one `(` for each `)` |
| ShuntingYard.PostfixCount | calculator.py:10-31 | each token occurs in the postfix output as often as in the input if it matches a branch, less the `(` matched by a `)`, and not at all otherwise |
| ShuntingYard.PostfixContents | calculator.py:10-31 | every number and operator is emitted exactly as often as it occurs; `)` is never emitted; `(` is emitted only as many times as it stays unmatched; tokens that match no branch are dropped |
| ShuntingYard.PostfixTokensFromInput | calculator.py:10-31 | every output token comes from the input |
| ShuntingYard.StepNumberOrder | calculator.py:15-28 | one pass appends the token read to the numbers already output if it is a number, and otherwise adds no number; the stack never holds a number |
| ShuntingYard.RunNumberOrder | calculator.py:15-31 | the numbers of the output are the initial ones followed by those of the input, in input order |
| ShuntingYard.PostfixKeepsNumberOrder | calculator.py:10-31 | the postfix form keeps the numbers of the input, in their order |
| ShuntingYard.StepFailsIff | calculator.py:25-28 | one pass fails exactly when the token is `)` and the stack holds no `(`, and the error is an unmatched parenthesis |
| ShuntingYard.StepDepth | calculator.py:23-28 | one pass changes the number of stacked `(` by one up for `(` and one down for `)` |
| ShuntingYard.RunErrorIff | calculator.py:15-31 | the run fails exactly when some prefix of the unread tokens closes more parentheses than the stack and the prefix have opened |
| ShuntingYard.PostfixErrorIff | calculator.py:10-31 | shunting_yard fails exactly when some prefix of the input has more `)` than `(`, and the error is an unmatched parenthesis |
| ShuntingYard.StepKeepsStackOrdered | calculator.py:18-28 | every pass keeps each stacked operator binding strictly tighter than the operator below it, which is what makes equal precedence associate to the left |
| ShuntingYard.RunIsScanThenDrain | calculator.py:15-31 | the conversion is the outer loop over the tokens followed by the final loop that drains the stack |
| ShuntingYard.ScanKeepsStackOrdered | calculator.py:15-28 | the outer loop, started on an ordered stack, ends with an ordered stack |
| ShuntingYard.PostfixStacksOrdered | calculator.py:15-28 | after any number of tokens from the start, every stacked operator binds strictly more tightly than the operator directly below it |
| Ast.Step | calculator.py:39-45 | one pass of the node loop: a number pushes a leaf `Node`, a token passing the substring test against `+-*/` pops right then left and pushes a `Node` over them, failing on fewer than two nodes, and any other token is skipped; `Node` (calculator.py:1-5) is a leaf or an operator with two children |
| Ast.Build | calculator.py:38-45 | the only way the node loop fails is an operator with a missing operand |
| Ast.ToTree | calculator.py:36-46 | build_ast fails only for a missing operand or an empty final stack |
| Ast.BuildAst | calculator.py:36-46 | the method, pushing and popping its node stack, returns exactly the specification `ToTree` |
| Ast.OperatorTakesOperatorBranch | calculator.py:39-41 | the four operators fail the number test and take the operator branch |
| Ast.BuildPostOrder | calculator.py:38-45 | reading a well-formed tree's post-order tokens pushes exactly that tree on the stack |
| Ast.TreeFromPostOrder | calculator.py:36-46 | round trip: build_ast of a well-formed tree's post-order reading returns that tree |
| Ast.BottomTreeReturned | calculator.py:46 | build_ast returns the bottom of its stack: with two trees' readings one after the other, the first tree comes back and the second is ignored |
| Ast.StepFlatten | calculator.py:39-45 | one pass appends the token read to the post-order reading of the stack if it is a number or operator, and leaves it unchanged otherwise |
| Ast.BuildFlatten | calculator.py:38-45 | the post-order reading of the final stack is the initial reading followed by the input's numbers and operators, so every skipped token is exactly one that is neither |
| Ast.BuildWellFormed | calculator.py:38-45 | on tokenizer-shaped tokens, every node the loop builds has numbers at its leaves and one of the four operators at each inner node |
| Ast.TreeWellFormed | calculator.py:36-46 | the tree build_ast returns from tokenizer-shaped tokens is well formed |
| Ast.SingleTreeReadsBack | calculator.py:36-46 | when exactly one node remains, it is returned and its post-order reading is the input without the skipped tokens |
| Ast.PostOrderOfTree | calculator.py:36-46 | round trip: for postfix input in which every operator finds two nodes and exactly one node remains, the returned tree's post-order reading equals the input |
| Ast.StepHeight | calculator.py:39-45 | one pass fails exactly for an operator on a stack of fewer than two nodes; otherwise the height grows by one for a number and shrinks by one for an operator |
| Ast.BuildErrorIff | calculator.py:38-45 | the loop fails exactly when some operator finds fewer than two nodes, counting numbers minus operators before it; otherwise the final height is the initial height plus that count |
| Ast.TreeMissingOperandIff | calculator.py:36-46 | build_ast hits a missing operand exactly when some operator has fewer than two numbers-minus-operators before it |
| Ast.TreeEmptyIff | calculator.py:46 | build_ast returns nothing exactly when the input holds no number and no operator |
| Ast.SkipAll | calculator.py:38-45 | tokens that are neither numbers nor operators leave the stack unchanged |
| Calculator.DecimalValue | calculator.py:76 | `int()` on a digit string: the positional decimal value, most significant digit first |
| Calculator.DigitValue | calculator.py:76 | a digit's value is below ten and is the digit's position in `0123456789` |
| Calculator.DecimalValueAppend | calculator.py:76 | `int` reads digits positionally: the digits of `a` then of `b` are worth `a` times ten to the length of `b`, plus `b` |
| Calculator.Apply | calculator.py:79-86 | an operator fails exactly for `/` with divisor zero, the error is a division by zero, and a quotient times the divisor gives back the dividend |
| Calculator.Calculate | calculator.py:74-86 | the value of a tree, left operand first; the only failure is a division by zero |
| Calculator.DivisionFreeHasValue | calculator.py:74-86 | a tree without `/` always has a value |
| Calculator.CalculateFailsIff | calculator.py:74-86 | calculate fails exactly when some `/` node, whose operands both have values, has a right operand worth zero |
| Calculator.EvalPostOrder | calculator.py:74-86 | evaluating a tree's post-order reading on a stack of values pushes the tree's value, or fails as calculate does |
| Calculator.CalculateMatchesPostfix | calculator.py:74-86 | calculate agrees with the independent postfix evaluator on the tree's post-order reading, in value and in failure |
| Expressions.FullyParenthesisedReads | calculator.py:10-31 | a well-formed tree written with every operation in parentheses is a consistent expression that describes that tree |
| Expressions.MinimalReads | calculator.py:10-31 | a well-formed tree written with only the parentheses precedence and left grouping need is a consistent expression that describes that tree |
| Expressions.ConsistentTree | calculator.py:74-86 | the tree a consistent expression describes is well formed |
| Expressions.WrittenShaped | calculator.py:55-70 | a consistent expression is written with tokens of the shape tokenize emits |
| Expressions.EmittedThenPending | calculator.py:15-31 | what reaches the output while an expression is read, followed by its pending operators popped from the stack, is its tree's post-order reading |
| Expressions.PendingBindsTighter | calculator.py:18-22 | the operators an expression leaves on the stack bind at least as tightly as its outermost operation |
| Expressions.PopHigherOver | calculator.py:19-21 | the operator loop pops a run of operators that bind at least as tightly as the incoming one, and stops at the entry below them |
| Expressions.PopToOpenOver | calculator.py:26-27 | the `)` loop pops a run of operators and stops at the `(` below them |
| Expressions.RunOperatorOver | calculator.py:18-22 | an operator arriving over such a run sends it to the output and is pushed |
| Expressions.RunCloseOver | calculator.py:25-28 | a `)` arriving over a run of operators above a `(` sends them to the output and discards the `(` |
| Expressions.ExprRun | calculator.py:15-28 | reading a consistent expression over a stack whose top binds more loosely emits its output and leaves its pending operators on that stack |
| Expressions.LeftThenOperator | calculator.py:15-22 | once an operation's operator is read, its left operand is output in post-order and the operator waits on the stack |
| Expressions.OpRun | calculator.py:15-22 | an operation is read as its left operand, its operator and its right operand |
| Expressions.GroupRun | calculator.py:23-28 | a group pushes `(`, reads its inner expression above it, and at `)` outputs the inner expression's post-order reading and leaves the stack as it found it |
| Expressions.WrittenToPostfix | calculator.py:10-31 | shunting_yard turns every consistent expression into the post-order reading of the tree it describes |
| Expressions.ParenthesisedToPostfix | calculator.py:10-31 | shunting_yard turns a fully parenthesised expression into the post-order reading of its tree |
| Expressions.MinimalToPostfix | calculator.py:10-31 | shunting_yard turns an expression with the fewest parentheses into the post-order reading of its tree |
| Pipeline.EvaluateTokens | calculator.py:98-105 | shunting_yard, build_ast and calculate applied to a token list, the first failure propagated |
| Pipeline.Evaluate | calculator.py:94-105 | one pass of the loop body on a line: tokenize, then the rest of the pipeline, an invalid character ending it |
| Pipeline.ExpressionValue | calculator.py:98-105 | from the tokens of every consistent expression, shunting_yard, build_ast and calculate together compute what calculate computes on the tree it describes |
| Pipeline.LineValue | calculator.py:94-105 | a consistent expression written as a line with one space between tokens: tokenize returns exactly its tokens, and the whole pipeline computes what calculate computes on its tree |
| Pipeline.ParenthesisedExpressionValue | calculator.py:94-105 | from its tokens, and from its line written with spaces, the pipeline computes a fully parenthesised expression as calculate computes its tree |
| Pipeline.MinimalExpressionValue | calculator.py:94-105 | from its tokens, and from its line written with spaces, the pipeline computes an expression with the fewest parentheses as calculate computes its tree |
| Pipeline.EvaluateErrors | calculator.py:94-105 | a failure of the whole pipeline is an invalid character exactly when tokenize fails, and, after tokenize succeeds, an unmatched parenthesis exactly when shunting_yard fails; after both succeed, a missing operand or an empty expression exactly when build_ast reports it; once build_ast returns a tree, that tree is well formed and the pipeline fails exactly when calculate divides by zero, with a division-by-zero error |
| Examples.NumberTestIsSubstringTest | calculator.py:16 | `12` and `90` pass the number test; `10` and `21` do not |
| Examples.SpaceSeparatesNumbers | calculator.py:62-65 | two digits separated by a space give two number tokens |
| Examples.DigitRunExample | calculator.py:55-61 | two digits followed by a symbol and a digit give three tokens: the two-digit number, the symbol, the digit |
| Examples.TighterOperatorFirst | calculator.py:18-22 | `a p b q c` with `q` binding tighter than `p` becomes `a b c q p` |
| Examples.EarlierOperatorFirst | calculator.py:18-22 | `a p b q c` with `q` binding no tighter than `p` becomes `a b p c q`, which is left associativity |
| Examples.DroppedFirstNumber | calculator.py:15-28 | a leading token that matches no branch, such as `10`, is dropped, and the postfix result has an operator with one operand |
| Examples.OneOperandFirst | calculator.py:41-44 | build_ast on `b p c q` pops an empty stack at `p` |
| Examples.SumOfProductExample | calculator.py:8-31 | `1 + 2 * 4` becomes `1 2 4 * +`, not the `1 2 + 4 *` of the comment above the function |
| Examples.GroupShieldsOuterOperator | calculator.py:19-21 | reading the `-` of `2 * ( 3 + 4 - 5 )`, the operator loop pops only the `+` and stops at the `(`, leaving the tighter `*` below it on the stack |
| Examples.DifferenceChainExample | calculator.py:10-31 | `1 - 2 - 3` becomes `1 2 - 3 -` |
| Examples.LeadingTenExample | calculator.py:15-28 | `10 - 3 - 2` loses its `10` and becomes `3 - 2 -` |
| Examples.LeadingTenHasNoTree | calculator.py:43-44 | `3 - 2 -` has no tree: the first `-` finds one operand |
| Examples.UnmatchedParenExample | calculator.py:25-28 | `1 + 2 )` fails with an unmatched parenthesis |

## Left out

- `main` (calculator.py:88-109) is not modelled as a loop: the prompt, `input()`, the `exit` sentinel and every `print` are interactive I/O. `Pipeline.Evaluate` models one pass of its body (lines 94-105) as a function from a line to a value or an error.
- The message that `tokenize` prints for an invalid character (calculator.py:67) is left out. Only the failed result is kept, and it carries the offending character.
- Python exceptions (`IndexError`, `ZeroDivisionError`) become `Err` results rather than propagating.
- Calculator.Apply: `/` is exact division of real numbers, not Python's floating-point true division, and the model makes no claim about rounding. Once a `/` has produced a float, Python's `+`, `-` and `*` (calculator.py:79-84) on it are float operations too, and the model computes them exactly. An integer quotient too large for a float (a product of 35 ten-digit numbers divided by 1, say) raises `OverflowError` in Python; the model returns the exact value.
- ShuntingYard.Convert: requires that every token that fails the number test and passes the substring test against `+-*/` be one of the four operators (`Tokens.OperatorKnown`). A token such as `+-` reaches the operator branch at line 18. Line 20 raises `KeyError` when `+-` is the incoming token over a stacked operator, or the stacked top under an incoming operator; otherwise it is pushed and later output. Neither path is modelled. Every token `tokenize` emits meets the requirement (`Tokens.ShapedTokensKnown`).
- ShuntingYard.PostfixContents, ShuntingYard.PostfixCount, ShuntingYard.PostfixTokensFromInput, ShuntingYard.PostfixKeepsNumberOrder and ShuntingYard.PostfixErrorIff, with the Step and Run lemmas beneath them: carry the same requirement. `ToPostfix` tests operators with the exact set of four and would drop a token such as `+-`, which the source does not do.
- Tokenizer.LexMaximal: states maximality only for text without spaces. `Tokenizer.LexSpace` splits a scan at a space into two independent scans, each covered by LexMaximal, so two numbers are neighbours only across a space.
- Tokenizer.TokensMaximal: states maximality only for lines without spaces. `Tokenizer.TokensSpace` splits a line at a space in the same way.
- Calculator.Calculate: requires a well-formed tree, with a number at each leaf and an operator at each inner node. Trees that build_ast produces from tokenizer output are well formed (`Ast.TreeWellFormed`). Three failures are not modelled: `int("")` at line 76, the only `int()` failure, since line 75's substring test lets only digit runs and the empty string through; a leaf that fails the number test, which falls through to `calculate(node.left)` on `None` and raises `AttributeError` at line 75; and the result `None` for an unknown operator.
- `Node` is a datatype, not a class with mutable fields. Its `left` and `right` are assigned once, right after the node is created and before it is pushed (calculator.py:42-45), so no aliasing or later update is lost.
