/**
 * Infix expressions as they are written: numbers, binary operations and
 * parenthesised groups. An expression is consistent when its parentheses
 * and the precedence table, with equal precedence associating to the
 * left, make it read as the tree it describes. shunting_yard turns every
 * consistent expression into the post-order reading of that tree, whether
 * it is fully parenthesised, minimally parenthesised or anything between.
 */
module Expressions {
  import opened Tokens
  import opened Ast
  import ShuntingYard

  datatype Expr =
    | Num(value: string)
    | Op(op: string, left: Expr, right: Expr)
    | Group(inner: Expr)

  /** The infix tokens of an expression. */
  function Written(e: Expr): seq<string>
  {
    match e
    case Num(v) => [v]
    case Op(op, l, r) => Written(l) + [op] + Written(r)
    case Group(inner) => ["("] + Written(inner) + [")"]
  }

  /** The tree an expression describes: parentheses only group. */
  function TreeOf(e: Expr): Node
  {
    match e
    case Num(v) => Leaf(v)
    case Op(op, l, r) => Bin(op, TreeOf(l), TreeOf(r))
    case Group(inner) => TreeOf(inner)
  }

  /** How tightly the outermost operation of a written expression binds:
      an operation by its precedence, a number or a group above every
      operator. */
  function Level(e: Expr): nat
  {
    match e
    case Op(op, _, _) => if IsOperator(op) then Precedence(op) else 0
    case _ => 3
  }

  /** The same for a tree written without parentheses around it. */
  function NodeLevel(n: Node): nat
  {
    match n
    case Bin(op, _, _) => if IsOperator(op) then Precedence(op) else 0
    case Leaf(_) => 3
  }

  /** Numbers are numbers, operations use the four operators, a left
      operand binds at least as tightly as its operation and a right
      operand strictly more tightly. */
  predicate Consistent(e: Expr)
  {
    match e
    case Num(v) => v != "" && IsNumber(v)
    case Op(op, l, r) =>
      IsOperator(op) && Consistent(l) && Consistent(r) &&
      Precedence(op) <= Level(l) && Precedence(op) < Level(r)
    case Group(inner) => Consistent(inner)
  }

  /** A tree with every operation in parentheses. */
  function FullyParenthesised(n: Node): Expr
  {
    match n
    case Leaf(v) => Num(v)
    case Bin(op, l, r) => Group(Op(op, FullyParenthesised(l), FullyParenthesised(r)))
  }

  /** A tree with only the parentheses its precedence and left
      associativity need: around a left operand that binds more loosely
      than its operation, and around a right operand that binds no more
      tightly. */
  function Minimal(n: Node): Expr
  {
    match n
    case Leaf(v) => Num(v)
    case Bin(op, l, r) =>
      var p := NodeLevel(n);
      Op(op,
         if NodeLevel(l) < p then Group(Minimal(l)) else Minimal(l),
         if NodeLevel(r) <= p then Group(Minimal(r)) else Minimal(r))
  }

  lemma {:induction false} FullyParenthesisedReads(n: Node)
    requires WellFormed(n)
    ensures Consistent(FullyParenthesised(n)) && TreeOf(FullyParenthesised(n)) == n
  {
    match n
    case Leaf(_) =>
    case Bin(_, l, r) =>
      FullyParenthesisedReads(l);
      FullyParenthesisedReads(r);
  }

  lemma {:induction false} MinimalReads(n: Node)
    requires WellFormed(n)
    ensures Consistent(Minimal(n)) && TreeOf(Minimal(n)) == n
    ensures Level(Minimal(n)) == NodeLevel(n)
  {
    match n
    case Leaf(_) =>
    case Bin(_, l, r) =>
      MinimalReads(l);
      MinimalReads(r);
  }

  lemma {:induction false} ConsistentTree(e: Expr)
    requires Consistent(e)
    ensures WellFormed(TreeOf(e))
  {
    match e
    case Num(_) =>
    case Op(_, l, r) =>
      ConsistentTree(l);
      ConsistentTree(r);
    case Group(inner) =>
      ConsistentTree(inner);
  }

  /** A consistent expression is written with tokens of the shape the
      tokenizer emits. */
  lemma {:induction false} WrittenShaped(e: Expr)
    requires Consistent(e)
    ensures forall t <- Written(e) :: WellShaped(t)
  {
    match e
    case Num(v) =>
      ContainsChars(Digits, v);
    case Op(op, l, r) =>
      WrittenShaped(l);
      WrittenShaped(r);
      assert WellShaped(op) by { assert op[0] in Symbols; }
    case Group(inner) =>
      WrittenShaped(inner);
      assert WellShaped("(") && WellShaped(")") by {
        assert "("[0] in Symbols && ")"[0] in Symbols;
      }
  }

  // ---------------------------------------------------------------------
  // The conversion of one expression

  /** The operators still on the stack once `e` is read, bottom first: its
      right spine of unparenthesised operations. */
  function Pending(e: Expr): seq<string>
  {
    match e
    case Op(op, _, r) => [op] + Pending(r)
    case _ => []
  }

  /** What reaches the output while `e` is read. */
  function Emitted(e: Expr): seq<string>
  {
    match e
    case Num(v) => [v]
    case Op(_, l, r) => PostOrder(TreeOf(l)) + Emitted(r)
    case Group(inner) => PostOrder(TreeOf(inner))
  }

  lemma {:induction false} ReversedCons(x: string, s: seq<string>)
    ensures ShuntingYard.Reversed([x] + s) == ShuntingYard.Reversed(s) + [x]
    decreases |s|
  {
    if s != [] {
      assert ShuntingYard.Pop([x] + s) == [x] + ShuntingYard.Pop(s);
      ReversedCons(x, ShuntingYard.Pop(s));
    }
  }

  /** The output so far and the pending operators, popped, complete the
      post-order reading of the tree. */
  lemma {:induction false} EmittedThenPending(e: Expr)
    ensures PostOrder(TreeOf(e)) == Emitted(e) + ShuntingYard.Reversed(Pending(e))
  {
    match e
    case Num(_) =>
    case Op(op, l, r) =>
      EmittedThenPending(r);
      ReversedCons(op, Pending(r));
    case Group(_) =>
  }

  /** Every pending operator binds at least as tightly as the expression's
      outermost operation. */
  lemma {:induction false} PendingBindsTighter(e: Expr)
    requires Consistent(e)
    ensures forall x <- Pending(e) :: IsOperator(x) && Level(e) <= Precedence(x)
  {
    match e
    case Num(_) =>
    case Op(op, l, r) =>
      PendingBindsTighter(r);
    case Group(_) =>
  }

  /** The operator loop for `t` pops a run of operators that bind at least
      as tightly as `t`, down to an entry it stops at. */
  lemma {:induction false} PopHigherOver(t: string, output: seq<string>, ops: seq<string>, above: seq<string>)
    requires IsOperator(t)
    requires forall x <- above :: IsOperator(x) && Precedence(t) <= Precedence(x)
    requires ops == [] || !IsOperator(ShuntingYard.Top(ops)) ||
      Precedence(ShuntingYard.Top(ops)) < Precedence(t)
    ensures ShuntingYard.PopHigher(t, output, ops + above) ==
      (output + ShuntingYard.Reversed(above), ops)
    decreases |above|
  {
    if above == [] {
      assert ops + above == ops && output + ShuntingYard.Reversed(above) == output;
    } else {
      var top, below := ShuntingYard.Top(above), ShuntingYard.Pop(above);
      assert above == below + [top];
      assert IsOperator(top) && Precedence(t) <= Precedence(top);
      assert ShuntingYard.Top(ops + above) == top;
      assert ShuntingYard.Pop(ops + above) == ops + below;
      PopHigherOver(t, output + [top], ops, below);
      assert output + [top] + ShuntingYard.Reversed(below) == output + ShuntingYard.Reversed(above);
    }
  }

  /** The `)` loop pops a run of operators down to the `(` below them. */
  lemma {:induction false} PopToOpenOver(output: seq<string>, open: seq<string>, above: seq<string>)
    requires open != [] && ShuntingYard.Top(open) == "("
    requires forall x <- above :: IsOperator(x)
    ensures ShuntingYard.PopToOpen(output, open + above) ==
      (output + ShuntingYard.Reversed(above), open)
    decreases |above|
  {
    if above == [] {
      assert open + above == open && output + ShuntingYard.Reversed(above) == output;
    } else {
      var top, below := ShuntingYard.Top(above), ShuntingYard.Pop(above);
      assert above == below + [top];
      assert IsOperator(top);
      assert ShuntingYard.Top(open + above) == top;
      assert ShuntingYard.Pop(open + above) == open + below;
      PopToOpenOver(output + [top], open, below);
      assert output + [top] + ShuntingYard.Reversed(below) == output + ShuntingYard.Reversed(above);
    }
  }

  /** An operator arriving over a run of operators that bind at least as
      tightly sends them all out and is pushed on the entry below them. */
  lemma RunOperatorOver(op: string, rest: seq<string>, output: seq<string>, ops: seq<string>, above: seq<string>)
    requires IsOperator(op)
    requires forall x <- above :: IsOperator(x) && Precedence(op) <= Precedence(x)
    requires ops == [] || !IsOperator(ShuntingYard.Top(ops)) ||
      Precedence(ShuntingYard.Top(ops)) < Precedence(op)
    ensures ShuntingYard.Run([op] + rest, output, ops + above) ==
      ShuntingYard.Run(rest, output + ShuntingYard.Reversed(above), ops + [op])
  {
    OperatorIsNotNumber(op);
    PopHigherOver(op, output, ops, above);
    assert ShuntingYard.Step(op, output, ops + above) ==
      Ok((output + ShuntingYard.Reversed(above), ops + [op]));
    ShuntingYard.RunCons(op, rest, output, ops + above);
  }

  /** A `)` arriving over a run of operators sends them out and removes the
      `(` below them. */
  lemma RunCloseOver(rest: seq<string>, output: seq<string>, ops: seq<string>, above: seq<string>)
    requires forall x <- above :: IsOperator(x)
    ensures ShuntingYard.Run([")"] + rest, output, ops + ["("] + above) ==
      ShuntingYard.Run(rest, output + ShuntingYard.Reversed(above), ops)
  {
    ParensAreNotNumbers();
    var open := ops + ["("];
    assert ShuntingYard.Top(open) == "(" && ShuntingYard.Pop(open) == ops;
    PopToOpenOver(output, open, above);
    assert ShuntingYard.Step(")", output, open + above) ==
      Ok((output + ShuntingYard.Reversed(above), ops));
    ShuntingYard.RunCons(")", rest, output, open + above);
  }

  /** Reading a consistent expression over a stack whose top binds more
      loosely emits its output and leaves its pending operators on top of
      that stack. */
  lemma {:induction false} ExprRun(e: Expr, rest: seq<string>, output: seq<string>, ops: seq<string>)
    requires Consistent(e)
    requires ops == [] || !IsOperator(ShuntingYard.Top(ops)) ||
      Precedence(ShuntingYard.Top(ops)) < Level(e)
    ensures ShuntingYard.Run(Written(e) + rest, output, ops) ==
      ShuntingYard.Run(rest, output + Emitted(e), ops + Pending(e))
    decreases e, 1
  {
    match e
    case Num(v) =>
      ShuntingYard.RunCons(v, rest, output, ops);
      assert ops + Pending(e) == ops;
    case Op(op, l, r) =>
      OpParts(op, l, r, rest, output, ops);
      OpRun(op, l, r, rest, output, ops);
    case Group(inner) =>
      GroupRun(inner, rest, output, ops);
      assert ops + Pending(e) == ops;
  }

  /** An operation: its left operand, then the operator, which sends out
      the left operand's pending operators, then its right operand. */
  lemma {:induction false} OpRun(op: string, l: Expr, r: Expr, rest: seq<string>, output: seq<string>, ops: seq<string>)
    requires Consistent(Op(op, l, r))
    requires ops == [] || !IsOperator(ShuntingYard.Top(ops)) ||
      Precedence(ShuntingYard.Top(ops)) < Precedence(op)
    ensures ShuntingYard.Run(Written(l) + ([op] + (Written(r) + rest)), output, ops) ==
      ShuntingYard.Run(rest, output + PostOrder(TreeOf(l)) + Emitted(r), ops + [op] + Pending(r))
    decreases Op(op, l, r), 0
  {
    LeftThenOperator(op, l, Written(r) + rest, output, ops);
    ExprRun(r, rest, output + PostOrder(TreeOf(l)), ops + [op]);
  }

  /** The first half of an operation: once its operator is read, the left
      operand is output in post-order and the operator waits on the
      stack. */
  lemma {:induction false} LeftThenOperator(op: string, l: Expr, afterOp: seq<string>, output: seq<string>, ops: seq<string>)
    requires IsOperator(op) && Consistent(l) && Precedence(op) <= Level(l)
    requires ops == [] || !IsOperator(ShuntingYard.Top(ops)) ||
      Precedence(ShuntingYard.Top(ops)) < Precedence(op)
    ensures ShuntingYard.Run(Written(l) + ([op] + afterOp), output, ops) ==
      ShuntingYard.Run(afterOp, output + PostOrder(TreeOf(l)), ops + [op])
    decreases l, 2
  {
    ExprRun(l, [op] + afterOp, output, ops);
    PendingBindsTighter(l);
    RunOperatorOver(op, afterOp, output + Emitted(l), ops, Pending(l));
    EmittedThenPending(l);
    AppendAssoc(output, Emitted(l), ShuntingYard.Reversed(Pending(l)));
  }

  lemma AppendAssoc(a: seq<string>, b: seq<string>, c: seq<string>)
    ensures a + b + c == a + (b + c)
  {
  }

  /** The pieces an operation's conversion is assembled from. */
  lemma OpParts(op: string, l: Expr, r: Expr, rest: seq<string>, output: seq<string>, ops: seq<string>)
    ensures Written(Op(op, l, r)) + rest == Written(l) + ([op] + (Written(r) + rest))
    ensures output + Emitted(Op(op, l, r)) == output + PostOrder(TreeOf(l)) + Emitted(r)
    ensures ops + Pending(Op(op, l, r)) == ops + [op] + Pending(r)
  {
  }

  /** A group: `(` is pushed, the inner expression is read over it, and `)`
      sends out the inner expression's pending operators and the `(`. */
  lemma {:induction false} GroupRun(inner: Expr, rest: seq<string>, output: seq<string>, ops: seq<string>)
    requires Consistent(inner)
    ensures ShuntingYard.Run(Written(Group(inner)) + rest, output, ops) ==
      ShuntingYard.Run(rest, output + PostOrder(TreeOf(inner)), ops)
    decreases Group(inner), 0
  {
    var close := [")"] + rest;
    var o1 := output + Emitted(inner);
    assert Written(Group(inner)) + rest == ["("] + (Written(inner) + close);
    ParensAreNotNumbers();
    ShuntingYard.RunCons("(", Written(inner) + close, output, ops);
    ExprRun(inner, close, output, ops + ["("]);
    PendingBindsTighter(inner);
    RunCloseOver(rest, o1, ops, Pending(inner));
    EmittedThenPending(inner);
    AppendAssoc(output, Emitted(inner), ShuntingYard.Reversed(Pending(inner)));
  }

  /** shunting_yard turns every consistent expression into the post-order
      reading of the tree it describes. */
  lemma WrittenToPostfix(e: Expr)
    requires Consistent(e)
    ensures ShuntingYard.ToPostfix(Written(e)) == Ok(PostOrder(TreeOf(e)))
  {
    ExprRun(e, [], [], []);
    assert Written(e) + [] == Written(e);
    assert [] + Emitted(e) == Emitted(e) && [] + Pending(e) == Pending(e);
    ShuntingYard.DrainPopsAll(Emitted(e), Pending(e));
    EmittedThenPending(e);
  }

  /** shunting_yard turns a fully parenthesised expression into the
      post-order reading of its tree. */
  lemma ParenthesisedToPostfix(n: Node)
    requires WellFormed(n)
    ensures ShuntingYard.ToPostfix(Written(FullyParenthesised(n))) == Ok(PostOrder(n))
  {
    FullyParenthesisedReads(n);
    WrittenToPostfix(FullyParenthesised(n));
  }

  /** shunting_yard turns an expression written with the fewest parentheses
      into the post-order reading of its tree: precedence and left
      associativity alone place every other operation. */
  lemma MinimalToPostfix(n: Node)
    requires WellFormed(n)
    ensures ShuntingYard.ToPostfix(Written(Minimal(n))) == Ok(PostOrder(n))
  {
    MinimalReads(n);
    WrittenToPostfix(Minimal(n));
  }
}
