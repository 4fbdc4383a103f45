/**
 * calculate: the value of a tree, by recursion on its children. Numbers
 * are read as decimal integers; the four operators are exact, and `/` has
 * no value for a zero divisor.
 */
module Calculator {
  import opened Tokens
  import opened Ast

  /** The value of one decimal digit: its place in the digits written in
      ascending order of value. */
  function DigitValue(c: char): (d: nat)
    requires c in Digits
    ensures d < 10 && "0123456789"[d] == c
  {
    c as int - '0' as int
  }

  /** Python's `int(s)` on a string of decimal digits: the most significant
      digit first. */
  function DecimalValue(s: string): nat
    requires AllDigits(s)
    decreases |s|
  {
    if s == "" then 0
    else 10 * DecimalValue(s[..|s| - 1]) + DigitValue(s[|s| - 1])
  }

  function Pow10(k: nat): (p: nat)
    ensures p >= 1
  {
    if k == 0 then 1 else 10 * Pow10(k - 1)
  }

  lemma AllDigitsAppend(a: string, b: string)
    requires AllDigits(a) && AllDigits(b)
    ensures AllDigits(a + b)
  {
    forall i | 0 <= i < |a + b| ensures (a + b)[i] in Digits {
      if i >= |a| { assert (a + b)[i] == b[i - |a|]; }
    }
  }

  /** Positional notation: the digits of `a` followed by those of `b` are
      worth `a` shifted left by the length of `b`, plus `b`. */
  lemma {:induction false} DecimalValueAppend(a: string, b: string)
    requires AllDigits(a) && AllDigits(b)
    ensures AllDigits(a + b)
    ensures DecimalValue(a + b) == DecimalValue(a) * Pow10(|b|) + DecimalValue(b)
    decreases |b|
  {
    AllDigitsAppend(a, b);
    if b == "" {
      assert a + b == a;
    } else {
      var b' := b[..|b| - 1];
      DecimalValueAppend(a, b');
      DecimalValueLast(a, b);
      var x, y, d, p := DecimalValue(a), DecimalValue(b'), DigitValue(b[|b| - 1]), Pow10(|b'|);
      assert DecimalValue(b) == 10 * y + d;
      assert Pow10(|b|) == 10 * p;
      ShiftLeft(DecimalValue(a + b), DecimalValue(a + b'), x, y, d, p);
    }
  }

  lemma ShiftLeft(v: int, w: int, x: int, y: int, d: int, p: int)
    requires v == 10 * w + d && w == x * p + y
    ensures v == x * (10 * p) + (10 * y + d)
  {
  }

  lemma DecimalValueLast(a: string, b: string)
    requires AllDigits(a) && AllDigits(b) && b != ""
    ensures AllDigits(a + b) && AllDigits(a + b[..|b| - 1])
    ensures DecimalValue(a + b) == 10 * DecimalValue(a + b[..|b| - 1]) + DigitValue(b[|b| - 1])
  {
    AllDigitsAppend(a, b);
    assert (a + b)[..|a + b| - 1] == a + b[..|b| - 1];
    assert (a + b)[|a + b| - 1] == b[|b| - 1];
  }

  /** One operator applied to its two operand values. */
  function Apply(op: string, a: real, b: real): (r: Result<real>)
    requires IsOperator(op)
    ensures r.Err? <==> op == "/" && b == 0.0
    ensures r.Err? ==> r.error == DivisionByZero
    ensures r.Ok? && op == "/" ==> r.value * b == a
  {
    if op == "+" then Ok(a + b)
    else if op == "-" then Ok(a - b)
    else if op == "*" then Ok(a * b)
    else if b == 0.0 then Err(DivisionByZero)
    else Ok(a / b)
  }

  /** calculate: a leaf is its number, an inner node its operator applied
      to the values of its left and right children, left first. The only
      way to fail is a division by zero. */
  function Calculate(n: Node): (r: Result<real>)
    requires WellFormed(n)
    ensures r.Err? ==> r.error == DivisionByZero
  {
    match n
    case Leaf(v) =>
      ContainsChars(Digits, v);
      Ok(DecimalValue(v) as real)
    case Bin(op, l, r) =>
      match Calculate(l)
      case Err(e) => Err(e)
      case Ok(a) =>
        match Calculate(r)
        case Err(e) => Err(e)
        case Ok(b) => Apply(op, a, b)
  }

  /** No division, no failure: a tree without `/` always has a value. */
  predicate DivisionFree(n: Node)
  {
    match n
    case Leaf(_) => true
    case Bin(op, l, r) => op != "/" && DivisionFree(l) && DivisionFree(r)
  }

  lemma {:induction false} DivisionFreeHasValue(n: Node)
    requires WellFormed(n) && DivisionFree(n)
    ensures Calculate(n).Ok?
  {
    match n
    case Leaf(_) =>
    case Bin(op, l, r) =>
      DivisionFreeHasValue(l);
      DivisionFreeHasValue(r);
  }

  /** Some `/` node of the tree, all of whose operands have values, has a
      right operand worth zero. */
  predicate DividesByZero(n: Node)
    requires WellFormed(n)
  {
    match n
    case Leaf(_) => false
    case Bin(op, l, r) =>
      DividesByZero(l) || DividesByZero(r) ||
      (op == "/" && Calculate(l).Ok? && Calculate(r) == Ok(0.0))
  }

  /** calculate fails exactly when some division, once its operands are
      evaluated, has a zero divisor. */
  lemma {:induction false} CalculateFailsIff(n: Node)
    requires WellFormed(n)
    ensures Calculate(n).Err? <==> DividesByZero(n)
  {
    match n
    case Leaf(_) =>
    case Bin(op, l, r) =>
      CalculateFailsIff(l);
      CalculateFailsIff(r);
  }

  // ---------------------------------------------------------------------
  // A reference evaluator: the postfix form run on a stack of values

  /** Postfix evaluation without a tree: a number pushes its value, an
      operator replaces the two top values by its result. */
  function EvalPostfix(ts: seq<string>, vals: seq<real>): Result<seq<real>>
    decreases |ts|
  {
    if ts == [] then Ok(vals)
    else
      var t := ts[0];
      if IsNumber(t) then
        ContainsChars(Digits, t);
        EvalPostfix(ts[1..], vals + [DecimalValue(t) as real])
      else if IsOperator(t) then
        if |vals| < 2 then Err(MissingOperand)
        else
          match Apply(t, vals[|vals| - 2], vals[|vals| - 1])
          case Err(e) => Err(e)
          case Ok(v) => EvalPostfix(ts[1..], vals[..|vals| - 2] + [v])
      else EvalPostfix(ts[1..], vals)
  }

  /** Running a tree's post-order reading on the value stack pushes the
      value calculate gives the tree, or fails as calculate does. */
  lemma {:induction false} EvalPostOrder(n: Node, rest: seq<string>, vals: seq<real>)
    requires WellFormed(n)
    ensures EvalPostfix(PostOrder(n) + rest, vals) ==
      match Calculate(n)
      case Err(e) => Err(e)
      case Ok(v) => EvalPostfix(rest, vals + [v])
  {
    match n
    case Leaf(v) =>
      assert ([v] + rest)[0] == v && ([v] + rest)[1..] == rest;
    case Bin(op, l, r) =>
      assert PostOrder(n) + rest == PostOrder(l) + (PostOrder(r) + ([op] + rest));
      EvalPostOrder(l, PostOrder(r) + ([op] + rest), vals);
      OperatorIsNotNumber(op);
      assert ([op] + rest)[0] == op && ([op] + rest)[1..] == rest;
      if Calculate(l).Ok? {
        var a := Calculate(l).value;
        EvalPostOrder(r, [op] + rest, vals + [a]);
        if Calculate(r).Ok? {
          var b := Calculate(r).value;
          var s := vals + [a] + [b];
          assert s[..|s| - 2] == vals && s[|s| - 2] == a && s[|s| - 1] == b;
        }
      }
  }

  /** calculate agrees with evaluating the postfix reading of the tree
      directly. */
  lemma CalculateMatchesPostfix(n: Node)
    requires WellFormed(n)
    ensures Calculate(n).Ok? ==> EvalPostfix(PostOrder(n), []) == Ok([Calculate(n).value])
    ensures Calculate(n).Err? ==> EvalPostfix(PostOrder(n), []) == Err(DivisionByZero)
  {
    EvalPostOrder(n, [], []);
    assert PostOrder(n) + [] == PostOrder(n);
    if Calculate(n).Ok? {
      assert [] + [Calculate(n).value] == [Calculate(n).value];
    }
  }
}
