/**
 * The expression tree and build_ast: postfix tokens become a tree by a
 * stack of nodes. A number pushes a leaf; an operator pops its right and
 * then its left operand and pushes the node it forms; the bottom of the
 * stack is the result.
 */
module Ast {
  import opened Tokens

  /** A node of the tree. A node's children are set right after it is
      created and before it is pushed, so a value is enough. */
  datatype Node =
    | Leaf(value: string)
    | Bin(op: string, left: Node, right: Node)

  /** build_ast's operator branch: a token that fails the number test and
      passes the substring test against the operators. */
  predicate IsOperatorToken(t: string)
  {
    !IsNumber(t) && Contains(Operators, t)
  }

  /** A token that build_ast does not skip. */
  predicate IsNodeToken(t: string)
  {
    IsNumber(t) || Contains(Operators, t)
  }

  /** Every leaf holds a number, every inner node one of the four
      operators. */
  predicate WellFormed(n: Node)
  {
    match n
    case Leaf(v) => v != "" && IsNumber(v)
    case Bin(op, l, r) => IsOperator(op) && WellFormed(l) && WellFormed(r)
  }

  /** The tree read back in post-order: left, right, then the node. */
  function PostOrder(n: Node): seq<string>
  {
    match n
    case Leaf(v) => [v]
    case Bin(op, l, r) => PostOrder(l) + PostOrder(r) + [op]
  }

  /** The post-order readings of a stack of nodes, bottom first. */
  function Flatten(stack: seq<Node>): seq<string>
    decreases |stack|
  {
    if stack == [] then []
    else Flatten(stack[..|stack| - 1]) + PostOrder(stack[|stack| - 1])
  }

  /** One pass of the loop over token `t`: the new node stack. */
  function Step(t: string, stack: seq<Node>): Result<seq<Node>>
  {
    if IsNumber(t) then Ok(stack + [Leaf(t)])
    else if Contains(Operators, t) then
      if |stack| < 2 then Err(MissingOperand)
      else Ok(stack[..|stack| - 2] + [Bin(t, stack[|stack| - 2], stack[|stack| - 1])])
    else Ok(stack)
  }

  /** The node stack after the loop over `ts`, starting from `stack`. */
  function Build(ts: seq<string>, stack: seq<Node>): (r: Result<seq<Node>>)
    ensures r.Err? ==> r.error == MissingOperand
    decreases |ts|
  {
    if ts == [] then Ok(stack)
    else
      match Step(ts[0], stack)
      case Err(e) => Err(e)
      case Ok(s) => Build(ts[1..], s)
  }

  /** The tree build_ast returns: the bottom of the final stack. */
  function ToTree(ts: seq<string>): (r: Result<Node>)
    ensures r.Err? ==> r.error == MissingOperand || r.error == EmptyExpression
  {
    match Build(ts, [])
    case Err(e) => Err(e)
    case Ok(stack) => if stack == [] then Err(EmptyExpression) else Ok(stack[0])
  }

  /** build_ast. */
  method BuildAst(postfix: seq<string>) returns (r: Result<Node>)
    ensures r == ToTree(postfix)
  {
    var stack: seq<Node> := [];
    for i := 0 to |postfix|
      invariant Build(postfix, []) == Build(postfix[i..], stack)
    {
      var token := postfix[i];
      assert postfix[i..][0] == token && postfix[i..][1..] == postfix[i + 1..];
      if IsNumber(token) {
        stack := stack + [Leaf(token)];
      } else if Contains(Operators, token) {
        ghost var before := stack;
        if stack == [] {
          return Err(MissingOperand);
        }
        var right := stack[|stack| - 1];
        stack := stack[..|stack| - 1];
        if stack == [] {
          return Err(MissingOperand);
        }
        var left := stack[|stack| - 1];
        stack := stack[..|stack| - 1];
        assert before[..|before| - 2] == stack;
        assert before[|before| - 2] == left && before[|before| - 1] == right;
        stack := stack + [Bin(token, left, right)];
      }
    }
    assert postfix[|postfix|..] == [];
    if stack == [] {
      return Err(EmptyExpression);
    }
    return Ok(stack[0]);
  }

  // ---------------------------------------------------------------------
  // Token classes

  /** The four operators take build_ast's operator branch. */
  lemma OperatorTakesOperatorBranch(op: string)
    requires IsOperator(op)
    ensures IsOperatorToken(op) && IsNodeToken(op)
  {
    assert |op| == 1 && op[0] in Symbols;
    OperatorTestOnShapedTokens(op);
    OperatorIsNotNumber(op);
  }

  // ---------------------------------------------------------------------
  // Round trip

  lemma FlattenPush(stack: seq<Node>, n: Node)
    ensures Flatten(stack + [n]) == Flatten(stack) + PostOrder(n)
  {
    assert (stack + [n])[..|stack|] == stack;
  }

  /** Reading a well-formed tree in post-order and building from it pushes
      exactly that tree. */
  lemma {:induction false} BuildPostOrder(n: Node, rest: seq<string>, stack: seq<Node>)
    requires WellFormed(n)
    ensures Build(PostOrder(n) + rest, stack) == Build(rest, stack + [n])
  {
    match n
    case Leaf(v) =>
      assert ([v] + rest)[0] == v && ([v] + rest)[1..] == rest;
    case Bin(op, l, r) =>
      var ts := PostOrder(l) + PostOrder(r) + [op] + rest;
      assert ts == PostOrder(l) + (PostOrder(r) + ([op] + rest));
      BuildPostOrder(l, PostOrder(r) + ([op] + rest), stack);
      BuildPostOrder(r, [op] + rest, stack + [l]);
      OperatorTakesOperatorBranch(op);
      var s := stack + [l] + [r];
      assert s[..|s| - 2] == stack && s[|s| - 2] == l && s[|s| - 1] == r;
      assert Step(op, s) == Ok(stack + [n]);
      assert ([op] + rest)[0] == op && ([op] + rest)[1..] == rest;
  }

  /** build_ast gives back a well-formed tree from its post-order
      reading. */
  lemma TreeFromPostOrder(n: Node)
    requires WellFormed(n)
    ensures ToTree(PostOrder(n)) == Ok(n)
  {
    BuildPostOrder(n, [], []);
    assert PostOrder(n) + [] == PostOrder(n);
  }

  /** build_ast returns the bottom of the stack: when the postfix holds two
      complete trees one after the other, the first is returned and the
      second is ignored. */
  lemma BottomTreeReturned(n: Node, m: Node)
    requires WellFormed(n) && WellFormed(m)
    ensures ToTree(PostOrder(n) + PostOrder(m)) == Ok(n)
  {
    BuildPostOrder(n, PostOrder(m), []);
    assert [] + [n] == [n];
    BuildPostOrder(m, [], [n]);
    assert PostOrder(m) + [] == PostOrder(m);
    assert ToTree(PostOrder(n) + PostOrder(m)) == Ok(([n] + [m])[0]);
  }

  // ---------------------------------------------------------------------
  // What the stack holds

  /** One step appends to the post-order reading of the stack exactly the
      token it consumes, unless it skips it. */
  lemma StepFlatten(t: string, stack: seq<Node>)
    requires Step(t, stack).Ok?
    ensures Flatten(Step(t, stack).value) == Flatten(stack) + Filter([t], IsNodeToken)
  {
    FilterOne(t, IsNodeToken);
    if IsNumber(t) {
      FlattenPush(stack, Leaf(t));
    } else if Contains(Operators, t) {
      var below := stack[..|stack| - 2];
      var l, r := stack[|stack| - 2], stack[|stack| - 1];
      assert stack == below + [l] + [r];
      FlattenCombine(below, t, l, r);
    }
  }

  /** Combining the two top nodes under `t` appends `t` to the reading. */
  lemma FlattenCombine(below: seq<Node>, t: string, l: Node, r: Node)
    ensures Flatten(below + [Bin(t, l, r)]) == Flatten(below + [l] + [r]) + [t]
  {
    FlattenPush(below, Bin(t, l, r));
    FlattenPush(below, l);
    FlattenPush(below + [l], r);
  }

  /** The stack after the loop holds, in post-order, the stack before it
      followed by every number and operator of the input, in order: every
      token that is neither a number nor an operator is skipped, and none
      is invented. */
  lemma {:induction false} BuildFlatten(ts: seq<string>, stack: seq<Node>)
    requires Build(ts, stack).Ok?
    ensures Flatten(Build(ts, stack).value) == Flatten(stack) + Filter(ts, IsNodeToken)
    decreases |ts|
  {
    if ts != [] {
      var s := Step(ts[0], stack).value;
      StepFlatten(ts[0], stack);
      BuildFlatten(ts[1..], s);
      assert ts == [ts[0]] + ts[1..];
      FilterAppend([ts[0]], ts[1..], IsNodeToken);
    }
  }

  /** The nodes build_ast puts on the stack are well formed when the input
      has the shape the tokenizer produces. */
  lemma {:induction false} BuildWellFormed(ts: seq<string>, stack: seq<Node>)
    requires forall t <- ts :: WellShaped(t)
    requires forall n <- stack :: WellFormed(n)
    requires Build(ts, stack).Ok?
    ensures forall n <- Build(ts, stack).value :: WellFormed(n)
    decreases |ts|
  {
    if ts != [] {
      var t := ts[0];
      assert WellShaped(t);
      OperatorTestOnShapedTokens(t);
      if !IsNumber(t) && Contains(Operators, t) {
        assert stack[|stack| - 2] in stack && stack[|stack| - 1] in stack;
      }
      BuildWellFormed(ts[1..], Step(t, stack).value);
    }
  }

  /** On tokenizer-shaped input a returned tree is well formed. */
  lemma TreeWellFormed(ts: seq<string>)
    requires forall t <- ts :: WellShaped(t)
    requires ToTree(ts).Ok?
    ensures WellFormed(ToTree(ts).value)
  {
    BuildWellFormed(ts, []);
  }

  /** When the loop ends with exactly one node, that node read in post-order
      is the input without the skipped tokens. */
  lemma SingleTreeReadsBack(ts: seq<string>, n: Node)
    requires Build(ts, []) == Ok([n])
    ensures ToTree(ts) == Ok(n)
    ensures PostOrder(n) == Filter(ts, IsNodeToken)
  {
    BuildFlatten(ts, []);
    assert Flatten([n]) == PostOrder(n) by {
      assert [n][..0] == [];
      assert [] + PostOrder(n) == PostOrder(n);
    }
    assert [] + Filter(ts, IsNodeToken) == Filter(ts, IsNodeToken);
  }

  /** Round trip in the other direction: well-formed postfix (every
      operator finds two nodes and one node remains) is the post-order
      reading of the tree built from it. */
  lemma PostOrderOfTree(ts: seq<string>, n: Node)
    requires forall t <- ts :: IsNodeToken(t)
    requires Build(ts, []) == Ok([n])
    ensures ToTree(ts) == Ok(n)
    ensures PostOrder(n) == ts
  {
    SingleTreeReadsBack(ts, n);
    FilterAll(ts, IsNodeToken);
  }

  lemma {:induction false} FilterAll(s: seq<string>, p: string -> bool)
    requires forall x <- s :: p(x)
    ensures Filter(s, p) == s
    decreases |s|
  {
    if s != [] {
      assert s[0] in s;
      FilterAll(s[1..], p);
      assert s == [s[0]] + s[1..];
    }
  }

  // ---------------------------------------------------------------------
  // Errors

  /** Numbers minus operators among the tokens: what they add to the
      stack height. */
  function Balance(p: seq<string>): int
  {
    |Filter(p, IsNumber)| - |Filter(p, IsOperatorToken)|
  }

  /** Starting from a stack of height `h`, some operator of `ts` finds fewer
      than two nodes. */
  predicate Starves(h: int, ts: seq<string>)
  {
    exists k :: 0 <= k < |ts| && IsOperatorToken(ts[k]) && h + Balance(ts[..k]) < 2
  }

  lemma BalanceShift(ts: seq<string>, k: nat)
    requires 0 < k <= |ts|
    ensures Balance(ts[..k]) == Balance([ts[0]]) + Balance(ts[1..][..k - 1])
  {
    assert ts[..k] == [ts[0]] + ts[1..][..k - 1];
    FilterAppend([ts[0]], ts[1..][..k - 1], IsNumber);
    FilterAppend([ts[0]], ts[1..][..k - 1], IsOperatorToken);
  }

  /** Starving, one token at a time. */
  lemma StarvesCons(h: int, ts: seq<string>)
    requires ts != []
    ensures Starves(h, ts) <==>
      (IsOperatorToken(ts[0]) && h < 2) || Starves(h + Balance([ts[0]]), ts[1..])
  {
    var h' := h + Balance([ts[0]]);
    assert ts[..0] == [];
    if Starves(h, ts) {
      var k :| 0 <= k < |ts| && IsOperatorToken(ts[k]) && h + Balance(ts[..k]) < 2;
      if k > 0 {
        BalanceShift(ts, k);
        assert IsOperatorToken(ts[1..][k - 1]) && h' + Balance(ts[1..][..k - 1]) < 2;
      }
    }
    if Starves(h', ts[1..]) {
      var k :| 0 <= k < |ts[1..]| && IsOperatorToken(ts[1..][k]) && h' + Balance(ts[1..][..k]) < 2;
      BalanceShift(ts, k + 1);
      assert IsOperatorToken(ts[k + 1]) && h + Balance(ts[..k + 1]) < 2;
    }
  }

  /** One step fails exactly for an operator that finds fewer than two
      nodes; otherwise it changes the height by what the token adds. */
  lemma StepHeight(t: string, stack: seq<Node>)
    ensures Step(t, stack).Err? <==> IsOperatorToken(t) && |stack| < 2
    ensures Step(t, stack).Err? ==> Step(t, stack).error == MissingOperand
    ensures Step(t, stack).Ok? ==> |Step(t, stack).value| == |stack| + Balance([t])
  {
    assert Filter([t], IsNumber) == if IsNumber(t) then [t] else [];
    assert Filter([t], IsOperatorToken) == if IsOperatorToken(t) then [t] else [];
  }

  /** The loop fails exactly when some operator finds fewer than two nodes
      on the stack (a pop of an empty list); on success the stack has grown
      by the balance of numbers over operators. */
  lemma {:induction false} BuildErrorIff(ts: seq<string>, stack: seq<Node>)
    ensures Build(ts, stack).Err? <==> Starves(|stack|, ts)
    ensures Build(ts, stack).Err? ==> Build(ts, stack).error == MissingOperand
    ensures Build(ts, stack).Ok? ==> |Build(ts, stack).value| == |stack| + Balance(ts)
    decreases |ts|
  {
    if ts == [] {
      assert Balance(ts) == 0;
      assert ts[..0] == [];
    } else {
      var t := ts[0];
      StarvesCons(|stack|, ts);
      StepHeight(t, stack);
      if Step(t, stack).Ok? {
        BuildErrorIff(ts[1..], Step(t, stack).value);
        BalanceShift(ts, |ts|);
        assert ts[..|ts|] == ts && ts[1..][..|ts| - 1] == ts[1..];
      }
    }
  }

  /** build_ast fails with a missing operand exactly when some operator of
      the postfix has fewer than two nodes below it. */
  lemma TreeMissingOperandIff(ts: seq<string>)
    ensures ToTree(ts) == Err(MissingOperand) <==> Starves(0, ts)
  {
    BuildErrorIff(ts, []);
  }

  /** build_ast returns None exactly when the postfix holds no number and
      no operator: a list of skipped tokens such as a lone `(`. */
  lemma TreeEmptyIff(ts: seq<string>)
    ensures ToTree(ts) == Err(EmptyExpression) <==> Filter(ts, IsNodeToken) == []
  {
    BuildErrorIff(ts, []);
    if Build(ts, []).Ok? {
      BuildFlatten(ts, []);
      var st := Build(ts, []).value;
      if st != [] {
        FlattenNonEmpty(st);
      }
    }
    if Filter(ts, IsNodeToken) == [] {
      SkipAll(ts, []);
    }
  }

  lemma FlattenNonEmpty(stack: seq<Node>)
    requires stack != []
    ensures Flatten(stack) != []
  {
    var n := stack[|stack| - 1];
    match n
    case Leaf(v) =>
    case Bin(op, l, r) =>
  }

  lemma {:induction false} SkipAll(ts: seq<string>, stack: seq<Node>)
    requires Filter(ts, IsNodeToken) == []
    ensures Build(ts, stack) == Ok(stack)
    decreases |ts|
  {
    if ts != [] {
      assert Filter([ts[0]], IsNodeToken) == [];
      SkipAll(ts[1..], stack);
    }
  }
}
