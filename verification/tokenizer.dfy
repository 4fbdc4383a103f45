/**
 * The tokenizer: one scan over the line that collects digits in a pending
 * number buffer and cuts tokens at operators, parentheses and spaces.
 */
module Tokenizer {
  import opened Tokens

  /** A character the scan accepts. */
  predicate Allowed(c: char)
  {
    c in Digits || c in Symbols || c == ' '
  }

  /** The pending number buffer as the tokens it contributes. */
  function Flush(number: string): seq<string>
  {
    if number == "" then [] else [number]
  }

  /** `tokens` followed by what the rest of the scan yields. */
  function Prepend(tokens: seq<string>, r: Result<seq<string>>): Result<seq<string>>
  {
    match r
    case Ok(rest) => Ok(tokens + rest)
    case Err(e) => Err(e)
  }

  lemma PrependNothing(r: Result<seq<string>>)
    ensures Prepend([], r) == r
  {
    if r.Ok? {
      assert [] + r.value == r.value;
    }
  }

  lemma PrependTwice(a: seq<string>, b: seq<string>, r: Result<seq<string>>)
    ensures Prepend(a, Prepend(b, r)) == Prepend(a + b, r)
  {
    if r.Ok? {
      assert a + (b + r.value) == (a + b) + r.value;
    }
  }

  /** What the scan yields from the unread part `rest` of the line when the
      number buffer holds `number`. */
  function Lex(rest: string, number: string): Result<seq<string>>
    decreases |rest|
  {
    if rest == [] then Ok(Flush(number))
    else
      var c := rest[0];
      if c in Digits then Lex(rest[1..], number + [c])
      else if c in Symbols then Prepend(Flush(number) + [[c]], Lex(rest[1..], ""))
      else if c == ' ' then Prepend(Flush(number), Lex(rest[1..], ""))
      else Err(InvalidCharacter(c))
  }

  /** The tokens of a whole line. */
  function TokensOf(line: string): Result<seq<string>>
  {
    Lex(line, "")
  }

  /** tokenize: the line scanned character by character. */
  method Tokenize(line: string) returns (r: Result<seq<string>>)
    ensures r == TokensOf(line)
  {
    var tokens: seq<string> := [];
    var number: string := "";
    PrependNothing(TokensOf(line));
    for i := 0 to |line|
      invariant TokensOf(line) == Prepend(tokens, Lex(line[i..], number))
    {
      var c := line[i];
      assert line[i..][0] == c && line[i..][1..] == line[i + 1..];
      if c in Digits {
        number := number + [c];
      } else if c in Symbols {
        PrependTwice(tokens, Flush(number) + [[c]], Lex(line[i + 1..], ""));
        ghost var emitted := tokens + (Flush(number) + [[c]]);
        if number != "" {
          tokens := tokens + [number];
          number := "";
        }
        tokens := tokens + [[c]];
        assert tokens == emitted;
      } else if c == ' ' {
        PrependTwice(tokens, Flush(number), Lex(line[i + 1..], ""));
        ghost var emitted := tokens + Flush(number);
        if number != "" {
          tokens := tokens + [number];
          number := "";
        }
        assert tokens == emitted;
      } else {
        return Err(InvalidCharacter(c));
      }
    }
    assert line[|line|..] == [];
    ghost var emitted := tokens + Flush(number);
    if number != "" {
      tokens := tokens + [number];
    }
    assert tokens == emitted;
    return Ok(tokens);
  }

  /** The line with its spaces removed. */
  function NoSpaces(s: string): string
    decreases |s|
  {
    if s == [] then []
    else (if s[0] == ' ' then [] else [s[0]]) + NoSpaces(s[1..])
  }

  /** The tokens written one after another. */
  function Concat(ts: seq<string>): string
    decreases |ts|
  {
    if ts == [] then [] else ts[0] + Concat(ts[1..])
  }

  lemma {:induction false} ConcatAppend(a: seq<string>, b: seq<string>)
    ensures Concat(a + b) == Concat(a) + Concat(b)
    decreases |a|
  {
    if a == [] {
      assert a + b == b;
    } else {
      assert (a + b)[0] == a[0] && (a + b)[1..] == a[1..] + b;
      ConcatAppend(a[1..], b);
    }
  }

  /** No two neighbouring tokens are both digit runs. */
  predicate NoAdjacentNumbers(ts: seq<string>)
    decreases |ts|
  {
    |ts| <= 1 || (!(IsDigitRun(ts[0]) && IsDigitRun(ts[1])) && NoAdjacentNumbers(ts[1..]))
  }

  /** The scan fails exactly when the unread line holds a character that is
      not a digit, an operator, a parenthesis or a space, and it reports the
      first such character. */
  lemma {:induction false} LexErrorIff(rest: string, number: string)
    ensures Lex(rest, number).Err? <==> exists k :: 0 <= k < |rest| && !Allowed(rest[k])
    ensures Lex(rest, number).Err? ==>
      exists k :: 0 <= k < |rest| && !Allowed(rest[k]) &&
        (forall j :: 0 <= j < k ==> Allowed(rest[j])) &&
        Lex(rest, number).error == InvalidCharacter(rest[k])
    decreases |rest|
  {
    if rest != [] {
      var c := rest[0];
      if Allowed(c) {
        var number' := if c in Digits then number + [c] else "";
        LexErrorIff(rest[1..], number');
        if Lex(rest, number).Err? {
          var k' :| 0 <= k' < |rest[1..]| && !Allowed(rest[1..][k']) &&
            (forall j :: 0 <= j < k' ==> Allowed(rest[1..][j])) &&
            Lex(rest[1..], number').error == InvalidCharacter(rest[1..][k']);
          assert forall j :: 0 <= j < k' + 1 ==> Allowed(rest[j]) by {
            forall j | 0 <= j < k' + 1 ensures Allowed(rest[j]) {
              if j > 0 { assert rest[j] == rest[1..][j - 1]; }
            }
          }
        }
        if exists k :: 0 <= k < |rest| && !Allowed(rest[k]) {
          var k :| 0 <= k < |rest| && !Allowed(rest[k]);
          assert rest[1..][k - 1] == rest[k];
        }
      }
    }
  }

  /** tokenize returns None exactly when the line holds a character other
      than a digit, one of + - * / ( ) and a space; the error names the first
      such character. */
  lemma TokenizeErrorIff(line: string)
    ensures TokensOf(line).Err? <==> exists k :: 0 <= k < |line| && !Allowed(line[k])
    ensures TokensOf(line).Err? ==>
      exists k :: 0 <= k < |line| && !Allowed(line[k]) &&
        (forall j :: 0 <= j < k ==> Allowed(line[j])) &&
        TokensOf(line).error == InvalidCharacter(line[k])
  {
    LexErrorIff(line, "");
  }

  /** A line of spaces only, the empty line included, has no tokens. */
  lemma {:induction false} BlankLineHasNoTokens(line: string)
    requires forall k :: 0 <= k < |line| ==> line[k] == ' '
    ensures TokensOf(line) == Ok([])
    decreases |line|
  {
    if line != [] {
      assert line[0] == ' ' && ' ' !in Digits && ' ' !in Symbols;
      BlankLineHasNoTokens(line[1..]);
      PrependNothing(TokensOf(line[1..]));
    }
  }

  /** Writing the tokens one after another gives back the pending digits and
      the rest of the line without its spaces. */
  lemma {:induction false} LexConcat(rest: string, number: string)
    requires Lex(rest, number).Ok?
    ensures Concat(Lex(rest, number).value) == number + NoSpaces(rest)
    decreases |rest|
  {
    if rest == [] {
    } else {
      var c := rest[0];
      if c in Digits {
        LexConcat(rest[1..], number + [c]);
      } else if c in Symbols {
        LexConcat(rest[1..], "");
        ConcatAppend(Flush(number) + [[c]], Lex(rest[1..], "").value);
        ConcatAppend(Flush(number), [[c]]);
      } else {
        LexConcat(rest[1..], "");
        ConcatAppend(Flush(number), Lex(rest[1..], "").value);
      }
    }
  }

  /** On success the tokens, written one after another, are the line with
      its spaces removed. */
  lemma TokensConcat(line: string)
    requires TokensOf(line).Ok?
    ensures Concat(TokensOf(line).value) == NoSpaces(line)
  {
    LexConcat(line, "");
  }

  /** Every token is one operator or parenthesis character or a non-empty
      run of digits. */
  lemma {:induction false} LexShape(rest: string, number: string)
    requires AllDigits(number)
    requires Lex(rest, number).Ok?
    ensures forall t <- Lex(rest, number).value :: WellShaped(t)
    decreases |rest|
  {
    if rest != [] {
      var c := rest[0];
      if c in Digits {
        LexShape(rest[1..], number + [c]);
      } else {
        LexShape(rest[1..], "");
        assert WellShaped([c]) || c == ' ';
      }
    }
  }

  lemma TokensShape(line: string)
    requires TokensOf(line).Ok?
    ensures forall t <- TokensOf(line).value :: WellShaped(t)
  {
    LexShape(line, "");
  }

  /** A space ends the pending number: the scan of `a`, a space and `b`
      yields the tokens of `a` followed by those of `b` scanned afresh, and
      fails where the scan of `a` fails or else where that of `b` does. */
  lemma {:induction false} LexSpace(a: string, b: string, number: string)
    ensures Lex(a + " " + b, number) ==
      match Lex(a, number)
      case Err(e) => Err(e)
      case Ok(ts) => Prepend(ts, Lex(b, ""))
    decreases |a|
  {
    var line := a + " " + b;
    if a == [] {
      assert line[0] == ' ' && line[1..] == b;
    } else {
      var c := a[0];
      assert line[0] == c && line[1..] == a[1..] + " " + b;
      if c in Digits {
        LexSpace(a[1..], b, number + [c]);
      } else if c in Symbols || c == ' ' {
        LexSpace(a[1..], b, "");
        var emitted := if c in Symbols then Flush(number) + [[c]] else Flush(number);
        assert Lex(line, number) == Prepend(emitted, Lex(a[1..] + " " + b, ""));
        assert Lex(a, number) == Prepend(emitted, Lex(a[1..], ""));
        if Lex(a[1..], "").Ok? {
          PrependTwice(emitted, Lex(a[1..], "").value, Lex(b, ""));
        }
      }
    }
  }

  /** The tokens of a line with a space in it are the tokens of the part
      before the space followed by those of the part after it. */
  lemma TokensSpace(a: string, b: string)
    ensures TokensOf(a + " " + b) ==
      match TokensOf(a)
      case Err(e) => Err(e)
      case Ok(ts) => Prepend(ts, TokensOf(b))
  {
    LexSpace(a, b, "");
  }

  /** Digit runs are maximal: in a line without spaces no two neighbouring
      tokens are both numbers. */
  lemma {:induction false} LexMaximal(rest: string, number: string)
    requires forall k :: 0 <= k < |rest| ==> rest[k] != ' '
    requires Lex(rest, number).Ok?
    ensures NoAdjacentNumbers(Lex(rest, number).value)
    decreases |rest|
  {
    if rest != [] {
      var c := rest[0];
      if c in Digits {
        LexMaximal(rest[1..], number + [c]);
      } else {
        assert c in Symbols;
        LexMaximal(rest[1..], "");
        var tail := Lex(rest[1..], "").value;
        assert !IsDigitRun([c]) by {
          assert [c][0] == c;
        }
        assert ([[c]] + tail)[1..] == tail;
        assert NoAdjacentNumbers([[c]] + tail);
        if number != "" {
          assert ([number] + [[c]] + tail)[1..] == [[c]] + tail;
        }
      }
    }
  }

  lemma TokensMaximal(line: string)
    requires forall k :: 0 <= k < |line| ==> line[k] != ' '
    requires TokensOf(line).Ok?
    ensures NoAdjacentNumbers(TokensOf(line).value)
  {
    LexMaximal(line, "");
  }

  /** Tokens written out as a line, separated by single spaces. */
  function Spaced(ts: seq<string>): string
  {
    if |ts| <= 1 then (if ts == [] then "" else ts[0])
    else ts[0] + " " + Spaced(ts[1..])
  }

  /** A run of digits after the pending number is one token: the number
      and the run together. */
  lemma {:induction false} LexDigits(d: string, number: string)
    requires AllDigits(d) && number + d != ""
    ensures Lex(d, number) == Ok([number + d])
    decreases |d|
  {
    if d == "" {
      assert number + d == number;
    } else {
      assert number + [d[0]] + d[1..] == number + d;
      LexDigits(d[1..], number + [d[0]]);
    }
  }

  /** A token of the shape the tokenizer emits, alone on a line, comes
      back as that one token. */
  lemma OneToken(t: string)
    requires WellShaped(t)
    ensures TokensOf(t) == Ok([t])
  {
    if |t| == 1 && t[0] in Symbols {
      var c := t[0];
      assert t == [c] && t[1..] == [];
      assert c !in Digits;
      assert Lex(t, "") == Prepend(Flush("") + [[c]], Lex([], ""));
      assert Flush("") + [[c]] + [] == [t];
    } else {
      LexDigits(t, "");
      assert "" + t == t;
    }
  }

  /** Round trip: tokens of the shape the tokenizer emits, written with
      spaces between them, are tokenized back into the same list. */
  lemma {:induction false} SpacedTokens(ts: seq<string>)
    requires forall t <- ts :: WellShaped(t)
    ensures TokensOf(Spaced(ts)) == Ok(ts)
    decreases |ts|
  {
    if ts == [] {
    } else if |ts| == 1 {
      OneToken(ts[0]);
      assert [ts[0]] == ts;
    } else {
      OneToken(ts[0]);
      SpacedTokens(ts[1..]);
      TokensSpace(ts[0], Spaced(ts[1..]));
      assert [ts[0]] + ts[1..] == ts;
    }
  }
}
