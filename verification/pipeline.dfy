/**
 * The stages one after another, as the read-evaluate loop runs them on a
 * line: tokens, postfix, tree, value. The central fact: an expression
 * whose parentheses and precedence agree with a tree is computed as that
 * tree.
 */
module Pipeline {
  import opened Tokens
  import Tokenizer
  import ShuntingYard
  import opened Ast
  import opened Calculator
  import opened Expressions

  /** Tokens, postfix, tree and value, for tokens as the tokenizer
      produces them. */
  function EvaluateTokens(ts: seq<string>): Result<real>
    requires forall t <- ts :: WellShaped(t)
  {
    match ShuntingYard.ToPostfix(ts)
    case Err(e) => Err(e)
    case Ok(postfix) =>
      ShapedTokensKnown(ts);
      ShuntingYard.PostfixTokensFromInput(ts);
      match ToTree(postfix)
      case Err(e) => Err(e)
      case Ok(tree) =>
        TreeWellFormed(postfix);
        Calculate(tree)
  }

  /** One line through the whole pipeline. */
  function Evaluate(line: string): Result<real>
  {
    match Tokenizer.TokensOf(line)
    case Err(e) => Err(e)
    case Ok(ts) =>
      Tokenizer.TokensShape(line);
      EvaluateTokens(ts)
  }

  /** The pipeline computes a consistent expression as the tree it
      describes: shunting_yard, build_ast and calculate together give
      calculate's value of that tree. */
  lemma ExpressionValue(e: Expr)
    requires Consistent(e)
    ensures forall t <- Written(e) :: WellShaped(t)
    ensures WellFormed(TreeOf(e))
    ensures EvaluateTokens(Written(e)) == Calculate(TreeOf(e))
  {
    WrittenShaped(e);
    WrittenToPostfix(e);
    ConsistentTree(e);
    TreeFromPostOrder(TreeOf(e));
  }

  /** The same from the line: a consistent expression written out with
      spaces between its tokens is tokenized back into those tokens, so the
      read-evaluate loop prints the value of the tree it describes. */
  lemma LineValue(e: Expr)
    requires Consistent(e)
    ensures WellFormed(TreeOf(e))
    ensures Tokenizer.TokensOf(Tokenizer.Spaced(Written(e))) == Ok(Written(e))
    ensures Evaluate(Tokenizer.Spaced(Written(e))) == Calculate(TreeOf(e))
  {
    ExpressionValue(e);
    Tokenizer.SpacedTokens(Written(e));
  }

  /** A fully parenthesised expression is computed as the tree it writes
      out, from its tokens and from its line. */
  lemma ParenthesisedExpressionValue(n: Node)
    requires WellFormed(n)
    ensures forall t <- Written(FullyParenthesised(n)) :: WellShaped(t)
    ensures EvaluateTokens(Written(FullyParenthesised(n))) == Calculate(n)
    ensures Evaluate(Tokenizer.Spaced(Written(FullyParenthesised(n)))) == Calculate(n)
  {
    FullyParenthesisedReads(n);
    ExpressionValue(FullyParenthesised(n));
    LineValue(FullyParenthesised(n));
  }

  /** So is an expression written with the fewest parentheses. */
  lemma MinimalExpressionValue(n: Node)
    requires WellFormed(n)
    ensures forall t <- Written(Minimal(n)) :: WellShaped(t)
    ensures EvaluateTokens(Written(Minimal(n))) == Calculate(n)
    ensures Evaluate(Tokenizer.Spaced(Written(Minimal(n)))) == Calculate(n)
  {
    MinimalReads(n);
    ExpressionValue(Minimal(n));
    LineValue(Minimal(n));
  }

  /** On a pipeline failure, the error names the stage: a character the
      tokenizer refuses, a `)` without `(`, an operator without two
      operands or nothing to compute in build_ast, or a division by zero
      in calculate. */
  lemma EvaluateErrors(line: string)
    ensures Evaluate(line).Err? ==>
      (Evaluate(line).error.InvalidCharacter? <==> Tokenizer.TokensOf(line).Err?)
    ensures Tokenizer.TokensOf(line).Ok? ==>
      (Evaluate(line) == Err(UnmatchedParen) <==>
       ShuntingYard.ToPostfix(Tokenizer.TokensOf(line).value).Err?)
    ensures Tokenizer.TokensOf(line).Ok? && ShuntingYard.ToPostfix(Tokenizer.TokensOf(line).value).Ok? ==>
      var postfix := ShuntingYard.ToPostfix(Tokenizer.TokensOf(line).value).value;
      (Evaluate(line) == Err(MissingOperand) <==> ToTree(postfix) == Err(MissingOperand)) &&
      (Evaluate(line) == Err(EmptyExpression) <==> ToTree(postfix) == Err(EmptyExpression)) &&
      (ToTree(postfix).Ok? ==>
         WellFormed(ToTree(postfix).value) &&
         (Evaluate(line).Err? <==> DividesByZero(ToTree(postfix).value)) &&
         (Evaluate(line).Err? ==> Evaluate(line).error == DivisionByZero))
  {
    Tokenizer.TokenizeErrorIff(line);
    if Tokenizer.TokensOf(line).Ok? {
      var ts := Tokenizer.TokensOf(line).value;
      Tokenizer.TokensShape(line);
      ShapedTokensKnown(ts);
      ShuntingYard.PostfixErrorIff(ts);
      if ShuntingYard.ToPostfix(ts).Ok? {
        var postfix := ShuntingYard.ToPostfix(ts).value;
        ShuntingYard.PostfixTokensFromInput(ts);
        if ToTree(postfix).Ok? {
          TreeWellFormed(postfix);
          CalculateFailsIff(ToTree(postfix).value);
        }
      }
    }
  }
}
