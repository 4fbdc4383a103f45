/**
 * Tokens as the calculator passes them from stage to stage: plain strings.
 * The source decides what a token is by Python's string `in`, which is a
 * substring test; `Contains` models it.
 */
module Tokens {

  /** The string the source tests number tokens against. */
  const Digits: string := "1234567890"

  /** The characters the tokenizer emits as one-character tokens. */
  const Symbols: string := "+-*/()"

  /** The string the source tests operator tokens against. */
  const Operators: string := "+-*/"

  /** The ways the pipeline stops without a value. */
  datatype Error =
    | InvalidCharacter(c: char)  // tokenize prints the character and returns None
    | UnmatchedParen             // shunting_yard pops an empty operator list
    | MissingOperand             // build_ast pops an empty node stack
    | EmptyExpression            // build_ast finds no node and returns None
    | DivisionByZero             // calculate divides by zero

  datatype Result<T> = Ok(value: T) | Err(error: Error)

  /** Python's `t in hay` for two strings: `t` occurs in `hay` as a contiguous
      substring (the empty string occurs in every string). */
  predicate Contains(hay: string, t: string)
  {
    exists i :: 0 <= i <= |hay| && t <= hay[i..]
  }

  /** The source's number test `token in '1234567890'`. */
  predicate IsNumber(t: string)
  {
    Contains(Digits, t)
  }

  /** A key of the precedence table. */
  predicate IsOperator(t: string)
  {
    t == "+" || t == "-" || t == "*" || t == "/"
  }

  predicate AllDigits(t: string)
  {
    forall i :: 0 <= i < |t| ==> t[i] in Digits
  }

  /** A non-empty run of decimal digits. */
  predicate IsDigitRun(t: string)
  {
    t != "" && AllDigits(t)
  }

  /** The tokens the tokenizer produces: one operator or parenthesis
      character, or a run of digits. */
  predicate WellShaped(t: string)
  {
    (|t| == 1 && t[0] in Symbols) || IsDigitRun(t)
  }

  /** A token that reaches the source's operator branch (it fails the
      number test and passes the substring test against Operators) is a key
      of the precedence table, so looking up its precedence cannot fail. */
  predicate OperatorKnown(t: string)
  {
    !IsNumber(t) && Contains(Operators, t) ==> IsOperator(t)
  }

  /** The precedence table. */
  function Precedence(op: string): nat
    requires IsOperator(op)
  {
    if op == "+" || op == "-" then 1 else 2
  }

  /** The elements of `s` that satisfy `p`, in order. */
  function Filter(s: seq<string>, p: string -> bool): seq<string>
    decreases |s|
  {
    if s == [] then []
    else (if p(s[0]) then [s[0]] else []) + Filter(s[1..], p)
  }

  lemma {:induction false} FilterAppend(a: seq<string>, b: seq<string>, p: string -> bool)
    ensures Filter(a + b, p) == Filter(a, p) + Filter(b, p)
    decreases |a|
  {
    if a == [] {
      assert a + b == b;
    } else {
      assert (a + b)[0] == a[0] && (a + b)[1..] == a[1..] + b;
      FilterAppend(a[1..], b, p);
      var head := if p(a[0]) then [a[0]] else [];
      calc {
        Filter(a + b, p);
        head + Filter(a[1..] + b, p);
        head + (Filter(a[1..], p) + Filter(b, p));
        (head + Filter(a[1..], p)) + Filter(b, p);
        Filter(a, p) + Filter(b, p);
      }
    }
  }

  lemma FilterOne(x: string, p: string -> bool)
    ensures Filter([x], p) == if p(x) then [x] else []
  {
    assert [x][1..] == [];
  }

  lemma {:induction false} FilterCount(s: seq<string>, p: string -> bool, x: string)
    ensures multiset(Filter(s, p))[x] == if p(x) then multiset(s)[x] else 0
    decreases |s|
  {
    if s != [] {
      FilterCount(s[1..], p, x);
      assert s == [s[0]] + s[1..];
    }
  }

  lemma {:induction false} FilterNone(s: seq<string>, p: string -> bool)
    requires forall x <- s :: !p(x)
    ensures Filter(s, p) == []
    decreases |s|
  {
    if s != [] {
      assert s[0] in s;
      FilterNone(s[1..], p);
    }
  }

  /** Every character of a token that passes a substring test occurs in the
      searched string. */
  lemma ContainsChars(hay: string, t: string)
    requires Contains(hay, t)
    ensures forall k :: 0 <= k < |t| ==> t[k] in hay
  {
    var i :| 0 <= i <= |hay| && t <= hay[i..];
    forall k | 0 <= k < |t| ensures t[k] in hay {
      assert t[k] == hay[i..][k] == hay[i + k];
    }
  }

  /** For a one-character token the substring test is plain membership. */
  lemma ContainsChar(hay: string, c: char)
    ensures Contains(hay, [c]) <==> c in hay
  {
    if c in hay {
      var i :| 0 <= i < |hay| && hay[i] == c;
      assert [c] <= hay[i..];
    }
    if Contains(hay, [c]) {
      ContainsChars(hay, [c]);
      assert [c][0] in hay;
    }
  }

  // On the tokens the tokenizer produces, the source's operator test (a
  // substring test against Operators) accepts exactly the keys of the
  // precedence table, and its number test accepts only digit runs.
  lemma OperatorTestOnShapedTokens(t: string)
    requires WellShaped(t)
    ensures Contains(Operators, t) <==> IsOperator(t)
    ensures IsNumber(t) ==> IsDigitRun(t)
  {
    if |t| == 1 {
      assert t == [t[0]];
      ContainsChar(Operators, t[0]);
      ContainsChar(Digits, t[0]);
    } else {
      assert t[0] in Digits;
      if Contains(Operators, t) {
        ContainsChars(Operators, t);
        assert false;
      }
    }
  }

  lemma DigitsAscend()
    ensures forall i :: 0 <= i < 8 ==> Digits[i + 1] as int == Digits[i] as int + 1
  {
  }

  /** A two-character token passes the number test exactly when it is two
      consecutive digits from "12" to "89", or the "90" that ends the
      searched string; so "10", "21" and "55" are not numbers. */
  lemma TwoCharacterNumber(t: string)
    requires |t| == 2
    ensures IsNumber(t) <==>
      (t[0] in "12345678" && t[1] as int == t[0] as int + 1) || t == "90"
  {
    DigitsAscend();
    if IsNumber(t) {
      var i :| 0 <= i <= |Digits| && t <= Digits[i..];
      assert t[0] == Digits[i] && t[1] == Digits[i + 1];
      if i == 8 {
        assert t == Digits[8..10];
      }
    }
    if t[0] in "12345678" && t[1] as int == t[0] as int + 1 {
      var i :| 0 <= i < 8 && "12345678"[i] == t[0];
      assert Digits[i] == t[0];
      assert t <= Digits[i..];
    }
    if t == "90" {
      assert t <= Digits[8..];
    }
  }

  /** Every token the tokenizer can produce is one whose precedence lookup
      cannot fail. */
  lemma ShapedTokensKnown(ts: seq<string>)
    requires forall t <- ts :: WellShaped(t)
    ensures forall t <- ts :: OperatorKnown(t)
  {
    forall t <- ts ensures OperatorKnown(t) {
      OperatorTestOnShapedTokens(t);
    }
  }

  /** No token is both a number and an operator. */
  lemma OperatorIsNotNumber(t: string)
    ensures IsOperator(t) ==> !IsNumber(t)
  {
    if IsOperator(t) {
      assert t == [t[0]];
      ContainsChar(Digits, t[0]);
    }
  }

  /** Parentheses are not numbers. */
  lemma ParensAreNotNumbers()
    ensures !IsNumber("(") && !IsNumber(")")
  {
    ContainsChar(Digits, '(');
    ContainsChar(Digits, ')');
  }
}
