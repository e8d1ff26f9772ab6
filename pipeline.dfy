/**
 * The lexer and the parser together: what the parser can be given by the
 * lexer of frontend/lexer.ts. The identifier rule's handler,
 * `symbolHandler` (frontend/helper.ts:27-33), makes every word an
 * IDENTIFIER token, so the parser's keyword branches are never taken on
 * lexed text. The corrected table looks the word up in the keyword table.
 */
module Pipeline {
  import opened Wrappers
  import opened JsText
  import opened Tokens
  import opened Helper
  import opened Patterns
  import opened Lexing
  import opened LexerProperties
  import opened Parsing

  /** The rule table with only entry 6 corrected to match `||`: the
      identifier rule keeps the source's `symbolHandler`. */
  const BarFixedMatchToken: seq<Rule> := MatchToken[6 := Rule(Literal("||"), Default(Or))]

  /** A pattern that cannot match at a letter, `_` or `@`. */
  predicate CannotStartWord(p: Pattern) {
    || p == LineComment || p == WhiteSpaceRun || p == DigitRun
    || (p.Literal? && |p.text| >= 1 && !IsIdentifierStart(p.text[0]))
  }

  /** A table whose last entry, 25, is the identifier rule and whose
      earlier entries cannot match where a word starts. */
  predicate WordLast(rules: seq<Rule>) {
    && |rules| == 26 && rules[25].pattern == Word
    && forall j :: 0 <= j < 25 ==> CannotStartWord(rules[j].pattern)
  }

  lemma TablesEndWithWords()
    ensures WordLast(BarFixedMatchToken) && BarFixedMatchToken[25].handler == Symbol
    ensures WordLast(IntendedMatchToken) && IntendedMatchToken[25].handler == KeywordSymbol
  {
  }

  /** Where a word starts, such a table's identifier rule wins with the
      whole word. */
  lemma WordWins(rules: seq<Rule>, s: string, pos: nat)
    requires WordLast(rules) && pos < |s| && IsIdentifierStart(s[pos])
    ensures FirstMatch(rules, s, pos) == Some(Winner(25, 1 + Run(s, pos + 1, IdentifierPart)))
  {
    assert Run(s, pos, WhiteSpace) == 0;
    assert Run(s, pos, DecimalDigit) == 0;
    forall j | 0 <= j < 25
      ensures MatchLength(rules[j].pattern, s, pos).None?
    {
      if rules[j].pattern.Literal? {
        LiteralMismatch(rules[j].pattern.text, s, pos);
      }
    }
    PassOver(rules, s, pos, 0, 25);
  }

  /** The word at `pos` and the cursor after it. */
  function WordEnd(s: string, pos: nat): (n: nat)
    requires pos < |s|
    ensures pos < n <= |s|
  {
    pos + 1 + Run(s, pos + 1, IdentifierPart)
  }

  /** As written, a word, `let` or `const` included, is pushed as an
      IDENTIFIER token carrying the word. */
  lemma WordLexedAsWritten(s: string, pos: nat, acc: seq<Token>)
    requires pos < |s| && IsIdentifierStart(s[pos])
    ensures LexFrom(BarFixedMatchToken, s, pos, acc)
         == LexFrom(BarFixedMatchToken, s, WordEnd(s, pos), acc + [Token(Identifier, Some(s[pos..WordEnd(s, pos)]))])
  {
    TablesEndWithWords();
    WordWins(BarFixedMatchToken, s, pos);
    LexTurn(BarFixedMatchToken, s, pos, acc);
  }

  /** With the keyword lookup, the word is pushed with the kind the keyword
      table gives it: `let`, `const`, `def` and `return` become their
      keyword tokens and every other word an IDENTIFIER token. */
  lemma WordLexedIntended(s: string, pos: nat, acc: seq<Token>)
    requires pos < |s| && IsIdentifierStart(s[pos])
    ensures var w := s[pos..WordEnd(s, pos)];
      && LexFrom(IntendedMatchToken, s, pos, acc)
         == LexFrom(IntendedMatchToken, s, WordEnd(s, pos), acc + [Token(KeywordKind(w), Some(w))])
      && (KeywordKind(w) == KLet <==> w == "let")
      && (KeywordKind(w) == KConst <==> w == "const")
      && (KeywordKind(w) == KDef <==> w == "def")
      && (KeywordKind(w) == KReturn <==> w == "return")
      && (!IsKeyword(KeywordKind(w)) ==> KeywordKind(w) == Identifier)
  {
    TablesEndWithWords();
    WordWins(IntendedMatchToken, s, pos);
    LexTurn(IntendedMatchToken, s, pos, acc);
    KeywordKindIsLookup(s[pos..WordEnd(s, pos)]);
  }

  // ---------------------------------------------------------------------
  // As written, no keyword token reaches the parser.
  // ---------------------------------------------------------------------

  /** A handler that never returns a keyword token. */
  predicate KeywordFree(h: TokenHandler) {
    h != KeywordSymbol && !(h.Default? && IsKeyword(h.kind))
  }

  predicate NoKeywordTokens(ts: seq<Token>) {
    forall k :: 0 <= k < |ts| ==> !IsKeyword(ts[k].kind)
  }

  /** A table of keyword-free handlers lexes no keyword token. */
  lemma {:induction false} NoKeywordsFrom(rules: seq<Rule>, s: string, pos: nat, acc: seq<Token>)
    requires pos <= |s|
    requires forall j :: 0 <= j < |rules| ==> KeywordFree(rules[j].handler)
    requires NoKeywordTokens(acc)
    ensures LexFrom(rules, s, pos, acc).Lexed? ==> NoKeywordTokens(LexFrom(rules, s, pos, acc).tokens)
    decreases |s| - pos
  {
    if pos == |s| {
      assert LexFrom(rules, s, pos, acc).tokens == acc + [EofToken];
    } else if FirstMatch(rules, s, pos).Some? {
      LexTurn(rules, s, pos, acc);
      var w := FirstMatch(rules, s, pos).value;
      if w.length > 0 {
        var t := Emitted(rules[w.rule].handler, s[pos..pos + w.length]);
        NoKeywordPushed(acc, rules[w.rule].handler, s[pos..pos + w.length]);
        NoKeywordsFrom(rules, s, pos + w.length, acc + OptionToSeq(t));
      }
    }
  }

  /** A keyword-free handler pushes no keyword token. */
  lemma NoKeywordPushed(acc: seq<Token>, h: TokenHandler, text: string)
    requires KeywordFree(h) && NoKeywordTokens(acc)
    ensures NoKeywordTokens(acc + OptionToSeq(Emitted(h, text)))
  {
  }

  /** The statements a program without keyword tokens can contain:
      expression statements, empty statements and blocks of them. */
  predicate PlainStmt(st: Stmt) {
    match st
    case CompoundStmt(body) => forall k :: 0 <= k < |body| ==> PlainStmt(body[k])
    case EmptyStmt => true
    case ExprStmt(_) => true
    case _ => false
  }

  lemma {:induction false} ProgramPlain(ts: seq<Token>, i: nat)
    requires i <= |ts| && NoKeywordTokens(ts)
    ensures ProgramAt(ts, i).Parsed? ==> PlainStmt(ProgramAt(ts, i).value)
    decreases |ts| - i, 7
  {
    assert !IsKeyword(KindAt(ts, i));
    if KindAt(ts, i) == Lcb {
      BodyPlain(ts, i + 1, []);
    }
  }

  lemma {:induction false} BodyPlain(ts: seq<Token>, i: nat, acc: seq<Stmt>)
    requires i <= |ts| && NoKeywordTokens(ts)
    requires forall k :: 0 <= k < |acc| ==> PlainStmt(acc[k])
    ensures BodyAt(ts, i, acc).Parsed? ==> PlainStmt(BodyAt(ts, i, acc).value)
    decreases |ts| - i, 8
  {
    if KindAt(ts, i) != Rcb && ProgramAt(ts, i).Parsed? {
      ProgramPlain(ts, i);
      var st := ProgramAt(ts, i);
      BodyPlain(ts, st.next, acc + [st.value]);
    }
  }

  lemma {:induction false} ParsePlain(ts: seq<Token>, i: nat, acc: seq<Stmt>)
    requires i <= |ts| && NoKeywordTokens(ts)
    requires forall k :: 0 <= k < |acc| ==> PlainStmt(acc[k])
    ensures ParseAt(ts, i, acc).Parsed? ==> PlainStmt(ParseAt(ts, i, acc).value)
    decreases |ts| - i
  {
    if KindAt(ts, i) != Eof && ProgramAt(ts, i).Parsed? {
      ProgramPlain(ts, i);
      var st := ProgramAt(ts, i);
      ParsePlain(ts, st.next, acc + [st.value]);
    }
  }

  /** As written (with entry 6 corrected so that lexing can end at all),
      the parser never sees `let`, `const`, `def` or `return`: whatever a
      lexed text parses to holds no declaration, function or `return`. */
  lemma AsWrittenNoDeclarations(s: string)
    ensures Tokenize(BarFixedMatchToken, s).Lexed? ==>
      var ts := Tokenize(BarFixedMatchToken, s).tokens;
      && NoKeywordTokens(ts)
      && (ParseAt(ts, 0, []).Parsed? ==> PlainStmt(ParseAt(ts, 0, []).value))
  {
    assert forall j :: 0 <= j < |BarFixedMatchToken| ==> KeywordFree(BarFixedMatchToken[j].handler);
    NoKeywordsFrom(BarFixedMatchToken, s, 0, []);
    if Tokenize(BarFixedMatchToken, s).Lexed? {
      ParsePlain(Tokenize(BarFixedMatchToken, s).tokens, 0, []);
    }
  }

  // ---------------------------------------------------------------------
  // `let x;` through both tables.
  // ---------------------------------------------------------------------

  /** A pattern that cannot match at character `c`. */
  predicate CannotStartWith(p: Pattern, c: char) {
    match p
    case LineComment => c != '/'
    case WhiteSpaceRun => !IsWhiteSpace(c)
    case DigitRun => !IsDecimalDigit(c)
    case Literal(t) => |t| >= 1 && t[0] != c
    case BarOrEmpty => false
    case Word => !IsIdentifierStart(c)
  }

  /** Rule `j` wins when no earlier rule can match the character at the
      cursor and its own pattern matches. */
  lemma RuleWins(rules: seq<Rule>, s: string, pos: nat, j: nat, n: nat)
    requires pos < |s| && j < |rules|
    requires forall i :: 0 <= i < j ==> CannotStartWith(rules[i].pattern, s[pos])
    requires MatchLength(rules[j].pattern, s, pos) == Some(n)
    ensures FirstMatch(rules, s, pos) == Some(Winner(j, n))
  {
    forall i | 0 <= i < j
      ensures MatchLength(rules[i].pattern, s, pos).None?
    {
      match rules[i].pattern
      case Literal(t) => LiteralMismatch(t, s, pos);
      case WhiteSpaceRun => assert Run(s, pos, WhiteSpace) == 0;
      case DigitRun => assert Run(s, pos, DecimalDigit) == 0;
      case _ =>
    }
    PassOver(rules, s, pos, 0, j);
  }

  /** In both tables `;` is entry 15 and no earlier entry can match it. */
  lemma SemicolonIsFifteenth()
    ensures forall i :: 0 <= i < 15 ==> CannotStartWith(BarFixedMatchToken[i].pattern, ';')
    ensures forall i :: 0 <= i < 15 ==> CannotStartWith(IntendedMatchToken[i].pattern, ';')
    ensures BarFixedMatchToken[15] == IntendedMatchToken[15] == Rule(Literal(";"), Default(Semi))
  {
  }

  /** Lexing `let x;` with a table that both tables' facts describe; the
      word handler decides the first two tokens. */
  lemma LexLetX(rules: seq<Rule>, s: string, first: Token, second: Token)
    requires s == "let x;"
    requires EarlyRules(rules) && |rules| == 26 && rules[15] == Rule(Literal(";"), Default(Semi))
    requires forall i :: 0 <= i < 15 ==> CannotStartWith(rules[i].pattern, ';')
    requires LexFrom(rules, s, 0, []) == LexFrom(rules, s, 3, [first])
    requires LexFrom(rules, s, 4, [first]) == LexFrom(rules, s, 5, [first, second])
    ensures Tokenize(rules, s) == Lexed([first, second, Token(Semi, Some(";")), EofToken])
  {
    LexMiddleSpace(rules, s, [first]);
    LexFinalSemi(rules, s, [first, second]);
  }

  /** The space of `let x;` is skipped. */
  lemma LexMiddleSpace(rules: seq<Rule>, s: string, acc: seq<Token>)
    requires s == "let x;"
    requires EarlyRules(rules)
    ensures LexFrom(rules, s, 3, acc) == LexFrom(rules, s, 4, acc)
  {
    WhiteSpaceSkipped(rules, s, 3, acc);
    assert Run(s, 3, WhiteSpace) == 1 by {
      assert Run(s, 4, WhiteSpace) == 0;
    }
  }

  /** The last turn of lexing `let x;`: the `;` rule wins and the run ends. */
  lemma LexFinalSemi(rules: seq<Rule>, s: string, acc: seq<Token>)
    requires s == "let x;"
    requires EarlyRules(rules) && |rules| == 26 && rules[15] == Rule(Literal(";"), Default(Semi))
    requires forall i :: 0 <= i < 15 ==> CannotStartWith(rules[i].pattern, ';')
    ensures LexFrom(rules, s, 5, acc) == Lexed(acc + [Token(Semi, Some(";")), EofToken])
  {
    assert MatchLength(Literal(";"), s, 5) == Some(1) by {
      assert s[5..6] == ";";
    }
    RuleWins(rules, s, 5, 15, 1);
    LexTurn(rules, s, 5, acc);
    assert s[5..6] == ";";
    assert acc + OptionToSeq(Emitted(Default(Semi), ";")) == acc + [Token(Semi, Some(";"))];
  }

  lemma WordsOfLetX(s: string)
    requires s == "let x;"
    ensures WordEnd(s, 0) == 3 && s[0..3] == "let"
    ensures WordEnd(s, 4) == 5 && s[4..5] == "x"
  {
    assert Run(s, 3, IdentifierPart) == 0;
    assert Run(s, 2, IdentifierPart) == 1;
    assert Run(s, 1, IdentifierPart) == 2;
    assert Run(s, 5, IdentifierPart) == 0;
  }

  /** As written, `let x;` lexes to two IDENTIFIER tokens and a `;`, and the
      parser reads `let` as an expression and then wants a `;` where `x`
      stands. */
  lemma LetAsWritten(s: string)
    requires s == "let x;"
    ensures Tokenize(BarFixedMatchToken, s)
         == Lexed([Token(Identifier, Some("let")), Token(Identifier, Some("x")), Token(Semi, Some(";")), EofToken])
    ensures ParseAt(Tokenize(BarFixedMatchToken, s).tokens, 0, []) == Failed(Expected(Semi, Identifier))
  {
    LetTokensAsWritten(s);
    ParseLetAsWritten(Tokenize(BarFixedMatchToken, s).tokens);
  }

  lemma LetTokensAsWritten(s: string)
    requires s == "let x;"
    ensures Tokenize(BarFixedMatchToken, s)
         == Lexed([Token(Identifier, Some("let")), Token(Identifier, Some("x")), Token(Semi, Some(";")), EofToken])
  {
    WordsOfLetX(s);
    TableShapes();
    SemicolonIsFifteenth();
    var first, second := Token(Identifier, Some("let")), Token(Identifier, Some("x"));
    WordLexedAsWritten(s, 0, []);
    assert [] + [first] == [first];
    WordLexedAsWritten(s, 4, [first]);
    assert [first] + [second] == [first, second];
    assert EarlyRules(BarFixedMatchToken);
    LexLetX(BarFixedMatchToken, s, first, second);
  }

  lemma ParseLetAsWritten(ts: seq<Token>)
    requires |ts| == 4 && ts[0] == Token(Identifier, Some("let")) && ts[1] == Token(Identifier, Some("x"))
    requires ts[2] == Token(Semi, Some(";")) && ts[3] == EofToken
    ensures ParseAt(ts, 0, []) == Failed(Expected(Semi, Identifier))
  {
    assert ExprAt(ts, 0, Lowest) == Parsed(StringExpr("let"), 1);
    assert ProgramAt(ts, 0) == Failed(Expected(Semi, Identifier));
  }

  /** With the keyword lookup, `let x;` lexes to LET, IDENTIFIER and `;`,
      and parses to the declaration of a mutable `x` of implicit type with
      no initialiser. */
  lemma LetIntended(s: string)
    requires s == "let x;"
    ensures Tokenize(IntendedMatchToken, s)
         == Lexed([Token(KLet, Some("let")), Token(Identifier, Some("x")), Token(Semi, Some(";")), EofToken])
    ensures ParseAt(Tokenize(IntendedMatchToken, s).tokens, 0, [])
         == Parsed(CompoundStmt([VariableStmt("x", UndefinedExpr, false, ImplicitType)]), 3)
  {
    LetTokensIntended(s);
    ParseLetIntended(Tokenize(IntendedMatchToken, s).tokens);
  }

  lemma LetTokensIntended(s: string)
    requires s == "let x;"
    ensures Tokenize(IntendedMatchToken, s)
         == Lexed([Token(KLet, Some("let")), Token(Identifier, Some("x")), Token(Semi, Some(";")), EofToken])
  {
    WordsOfLetX(s);
    TableShapes();
    SemicolonIsFifteenth();
    var first, second := Token(KLet, Some("let")), Token(Identifier, Some("x"));
    WordLexedIntended(s, 0, []);
    assert [] + [first] == [first];
    WordLexedIntended(s, 4, [first]);
    assert [first] + [second] == [first, second];
    LexLetX(IntendedMatchToken, s, first, second);
  }

  lemma ParseLetIntended(ts: seq<Token>)
    requires |ts| == 4 && ts[0] == Token(KLet, Some("let")) && ts[1] == Token(Identifier, Some("x"))
    requires ts[2] == Token(Semi, Some(";")) && ts[3] == EofToken
    ensures ParseAt(ts, 0, []) == Parsed(CompoundStmt([VariableStmt("x", UndefinedExpr, false, ImplicitType)]), 3)
  {
    var decl := VariableStmt("x", UndefinedExpr, false, ImplicitType);
    assert VariableDeclRestAt(ts, 2, "x", false, ImplicitType) == Parsed(decl, 3);
    assert ProgramAt(ts, 0) == Parsed(decl, 3);
    assert [] + [decl] == [decl];
    assert ParseAt(ts, 0, []) == ParseAt(ts, 3, [decl]);
  }
}
