/**
 * Worked inputs for the parser of frontend/parser.ts, written as token
 * arrays the way the lexer's handlers build them.
 */
module ParserExamples {
  import opened Wrappers
  import opened JsText
  import opened Tokens
  import opened Helper
  import opened Parsing
  import opened ParserProperties

  function Num(n: nat): Expr {
    NumericExpr(Int(n))
  }

  /** A one-digit number is spelled by its digit, and `parseInt` reads the
      digit back. */
  lemma OneDigit(n: nat, c: char)
    requires n < 10 && c == DigitChar(n)
    ensures Flatten(Num(n)) == [Token(Number, Some([c]))]
    ensures ParseInt([c]) == Int(n)
  {
    ParseIntNumberText(Int(n));
  }

  /** `a - b - c` groups to the left: `(a - b) - c`. */
  lemma SubtractionGroupsLeft(a: Expr, b: Expr, c: Expr)
    requires IsPrimary(a) && IsPrimary(b) && IsPrimary(c)
    requires Canonical(a, Lowest) && Canonical(b, Lowest) && Canonical(c, Lowest)
    ensures
      var ts := Flatten(a) + [OperatorToken(Dash)] + Flatten(b) + [OperatorToken(Dash)] + Flatten(c) + [EofToken];
      ExprAt(ts, 0, Lowest) == Parsed(BinaryExpr(BinaryExpr(a, b, Dash), c, Dash), |ts| - 1)
  {
    Grouping(a, Dash, b, Dash, c);
  }

  /** The table gives `+` a higher power than `*` and `/`, so `a * b + c`
      groups as `a * (b + c)` and `a + b / c` as `(a + b) / c`. */
  lemma AdditionBindsTighter(a: Expr, b: Expr, c: Expr, mul: TokenKind)
    requires IsPrimary(a) && IsPrimary(b) && IsPrimary(c)
    requires Canonical(a, Lowest) && Canonical(b, Lowest) && Canonical(c, Lowest)
    requires mul == Star || mul == Slash
    ensures
      var ts := Flatten(a) + [OperatorToken(mul)] + Flatten(b) + [OperatorToken(Plus)] + Flatten(c) + [EofToken];
      ExprAt(ts, 0, Lowest) == Parsed(BinaryExpr(a, BinaryExpr(b, c, Plus), mul), |ts| - 1)
    ensures
      var ts := Flatten(a) + [OperatorToken(Plus)] + Flatten(b) + [OperatorToken(mul)] + Flatten(c) + [EofToken];
      ExprAt(ts, 0, Lowest) == Parsed(BinaryExpr(BinaryExpr(a, b, Plus), c, mul), |ts| - 1)
  {
    Grouping(a, mul, b, Plus, c);
    Grouping(a, Plus, b, mul, c);
  }

  /** `2 * 3 + 4` is read as `2 * (3 + 4)`, which evaluates to 14. */
  lemma MultiplicationExample(ts: seq<Token>)
    requires |ts| == 6 && ts[0] == Token(Number, Some("2")) && ts[1] == Token(Star, Some("*"))
    requires ts[2] == Token(Number, Some("3")) && ts[3] == Token(Plus, Some("+"))
    requires ts[4] == Token(Number, Some("4")) && ts[5] == EofToken
    ensures ExprAt(ts, 0, Lowest) == Parsed(BinaryExpr(Num(2), BinaryExpr(Num(3), Num(4), Plus), Star), 5)
    ensures Evaluate(ExprAt(ts, 0, Lowest).value) == IntValue(14)
  {
    MultiplicationSpelling(ts);
    AdditionBindsTighter(Num(2), Num(3), Num(4), Star);
  }

  lemma MultiplicationSpelling(ts: seq<Token>)
    requires |ts| == 6 && ts[0] == Token(Number, Some("2")) && ts[1] == Token(Star, Some("*"))
    requires ts[2] == Token(Number, Some("3")) && ts[3] == Token(Plus, Some("+"))
    requires ts[4] == Token(Number, Some("4")) && ts[5] == EofToken
    ensures ts == Flatten(Num(2)) + [OperatorToken(Star)] + Flatten(Num(3)) + [OperatorToken(Plus)]
                  + Flatten(Num(4)) + [EofToken]
  {
    OneDigit(2, '2');
    OneDigit(3, '3');
    OneDigit(4, '4');
    assert OperatorToken(Star) == ts[1] && OperatorToken(Plus) == ts[3];
    assert ts == [ts[0]] + [ts[1]] + [ts[2]] + [ts[3]] + [ts[4]] + [ts[5]];
  }

  /** A parenthesis that is never closed stops the parse at the end marker. */
  lemma UnclosedParenthesis(ts: seq<Token>)
    requires |ts| == 5 && ts[0] == Token(LParen, Some("(")) && ts[1] == Token(Number, Some("1"))
    requires ts[2] == Token(Plus, Some("+")) && ts[3] == Token(Number, Some("2")) && ts[4] == EofToken
    ensures ExprAt(ts, 0, Lowest) == Failed(Expected(RParen, Eof))
  {
    OneDigit(1, '1');
    OneDigit(2, '2');
    var sum := BinaryExpr(Num(1), Num(2), Plus);
    assert Flatten(sum) == ts[1..4];
    assert Spells(ts, 1, ts[1..4]) by {
      SpellsSuffix(ts, 1);
      assert ts[1..] == ts[1..4] + [EofToken];
      SpellsSplit(ts, 1, ts[1..4], [EofToken]);
    }
    ExprRoundTrip(sum, Lowest, ts, 1);
    assert NudAt(ts, 0) == Failed(Expected(RParen, Eof));
  }

  /** `let x = 5;` declares a mutable `x` of implicit type. */
  lemma LetExample(ts: seq<Token>)
    requires |ts| == 6 && ts[0] == Token(KLet, Some("let")) && ts[1] == Token(Identifier, Some("x"))
    requires ts[2] == Token(Equals, Some("=")) && ts[3] == Token(Number, Some("5"))
    requires ts[4] == Token(Semi, Some(";")) && ts[5] == EofToken
    ensures ParseAt(ts, 0, []) == Parsed(CompoundStmt([VariableStmt("x", Num(5), false, ImplicitType)]), 5)
  {
    var decl := VariableStmt("x", Num(5), false, ImplicitType);
    LetDeclaration(ts);
    assert [] + [decl] == [decl];
    assert ParseAt(ts, 0, []) == ParseAt(ts, 5, [decl]);
  }

  lemma LetDeclaration(ts: seq<Token>)
    requires |ts| == 6 && ts[0] == Token(KLet, Some("let")) && ts[1] == Token(Identifier, Some("x"))
    requires ts[2] == Token(Equals, Some("=")) && ts[3] == Token(Number, Some("5"))
    requires ts[4] == Token(Semi, Some(";"))
    ensures ProgramAt(ts, 0) == Parsed(VariableStmt("x", Num(5), false, ImplicitType), 5)
  {
    OneDigit(5, '5');
    assert NudAt(ts, 3) == Parsed(Num(5), 4);
    assert ExprAt(ts, 3, Lowest) == Parsed(Num(5), 4);
    assert InitializerAt(ts, 2) == Parsed(Num(5), 4);
    assert VariableDeclAt(ts, 1, false) == VariableDeclRestAt(ts, 2, "x", false, ImplicitType);
  }
}
