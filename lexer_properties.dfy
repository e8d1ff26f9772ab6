/**
 * What the rule table of frontend/lexer.ts:74-101 does, as written and as
 * evidently intended.
 */
module LexerProperties {
  import opened Wrappers
  import opened JsText
  import opened Tokens
  import opened Helper
  import opened Patterns
  import opened Lexing

  /** Rules that do not match at the cursor are passed over. */
  lemma {:induction false} PassOver(rules: seq<Rule>, s: string, pos: nat, lo: nat, hi: nat)
    requires pos <= |s| && lo <= hi <= |rules|
    requires forall j :: lo <= j < hi ==> MatchLength(rules[j].pattern, s, pos).None?
    ensures FirstMatchFrom(rules, s, pos, lo) == FirstMatchFrom(rules, s, pos, hi)
    decreases hi - lo
  {
    if lo < hi {
      PassOver(rules, s, pos, lo + 1, hi);
    }
  }

  /** A literal does not match at a character other than its first. */
  lemma LiteralMismatch(t: string, s: string, pos: nat)
    requires pos < |s| && |t| >= 1 && s[pos] != t[0]
    ensures MatchLength(Literal(t), s, pos) == None
  {
    if pos + |t| <= |s| {
      assert s[pos..pos + |t|][0] == s[pos];
    }
  }

  // ---------------------------------------------------------------------
  // The table as written: entry 6 (`\||`) matches at every cursor.
  // ---------------------------------------------------------------------

  /** The entries both tables share: the comment and white-space rules,
      then the four two-character operators. */
  predicate EarlyRules(rules: seq<Rule>) {
    && |rules| >= 6
    && rules[0] == Rule(LineComment, Skip)
    && rules[1] == Rule(WhiteSpaceRun, Skip)
    && rules[2] == Rule(Literal("+="), Default(PlusEquals))
    && rules[3] == Rule(Literal("-="), Default(MinusEquals))
    && rules[4] == Rule(Literal("=="), Default(EqualsEquals))
    && rules[5] == Rule(Literal("!="), Default(BangEquals))
  }

  /** A table whose entry 6 is the source's `\||`. */
  predicate BarOrEmptySeventh(rules: seq<Rule>) {
    |rules| > 6 && rules[6] == Rule(BarOrEmpty, Default(Or))
  }

  lemma TableShapes()
    ensures EarlyRules(MatchToken) && BarOrEmptySeventh(MatchToken)
    ensures EarlyRules(IntendedMatchToken) && !BarOrEmptySeventh(IntendedMatchToken)
  {
  }

  /** Entry 6 always matches, so some rule among the first seven wins. */
  lemma {:induction false} WinnerAmongFirstSeven(rules: seq<Rule>, s: string, pos: nat, i: nat)
    requires BarOrEmptySeventh(rules)
    requires pos <= |s| && i <= 6
    ensures FirstMatchFrom(rules, s, pos, i).Some?
    ensures FirstMatchFrom(rules, s, pos, i).value.rule <= 6
    decreases 6 - i
  {
    if i < 6 && MatchLength(rules[i].pattern, s, pos).None? {
      WinnerAmongFirstSeven(rules, s, pos, i + 1);
    }
  }

  /** Entries 7 to 25 (`&&` through the identifier rule) never win, and the
      no-match exception is never thrown. */
  lemma LaterRulesUnreachable(s: string, pos: nat)
    requires pos <= |s|
    ensures FirstMatch(MatchToken, s, pos).Some?
    ensures FirstMatch(MatchToken, s, pos).value.rule <= 6
  {
    TableShapes();
    WinnerAmongFirstSeven(MatchToken, s, pos, 0);
  }

  /** A table in which some rule matches at every cursor never reports the
      "Unexpected character" error. */
  lemma {:induction false} NoLexErrorFrom(rules: seq<Rule>, s: string, pos: nat, acc: seq<Token>)
    requires pos <= |s|
    requires forall t: string, p: nat :: p <= |t| ==> FirstMatch(rules, t, p).Some?
    ensures !LexFrom(rules, s, pos, acc).LexError?
    decreases |s| - pos
  {
    if pos < |s| {
      LexTurn(rules, s, pos, acc);
      var w := FirstMatch(rules, s, pos).value;
      if w.length > 0 {
        NoLexErrorFrom(rules, s, pos + w.length,
          acc + OptionToSeq(Emitted(rules[w.rule].handler, s[pos..pos + w.length])));
      }
    }
  }

  /** With the table as written, the "Unexpected character" error cannot
      happen on any input. */
  lemma AsWrittenNeverLexError(s: string)
    ensures !Tokenize(MatchToken, s).LexError?
  {
    forall t: string, p: nat | p <= |t|
      ensures FirstMatch(MatchToken, t, p).Some?
    {
      LaterRulesUnreachable(t, p);
    }
    NoLexErrorFrom(MatchToken, s, 0, []);
  }

  /** A handler that returns nothing or a token of a kind in `ks`. */
  predicate HandlerKindIn(h: TokenHandler, ks: set<TokenKind>) {
    h == Skip || (h.Default? && h.kind in ks)
  }

  /** If every rule up to `m` returns only kinds in `ks` (or nothing) and no
      rule after `m` ever wins, the tokens of a normal run all have kinds in
      `ks`, apart from the end marker. */
  lemma {:induction false} KindsFrom(rules: seq<Rule>, s: string, pos: nat, acc: seq<Token>, m: nat, ks: set<TokenKind>)
    requires pos <= |s|
    requires forall t: string, p: nat :: p <= |t| && FirstMatch(rules, t, p).Some? ==> FirstMatch(rules, t, p).value.rule <= m
    requires forall j :: 0 <= j < |rules| && j <= m ==> HandlerKindIn(rules[j].handler, ks)
    requires forall k :: 0 <= k < |acc| ==> acc[k].kind in ks
    ensures LexFrom(rules, s, pos, acc).Lexed? ==>
      var ts := LexFrom(rules, s, pos, acc).tokens;
      forall k :: 0 <= k < |ts| ==> ts[k].kind in ks + {Eof}
    decreases |s| - pos
  {
    if pos < |s| && FirstMatch(rules, s, pos).Some? {
      LexTurn(rules, s, pos, acc);
      var w := FirstMatch(rules, s, pos).value;
      if w.length > 0 {
        var t := Emitted(rules[w.rule].handler, s[pos..pos + w.length]);
        assert HandlerKindIn(rules[w.rule].handler, ks);
        KindsFrom(rules, s, pos + w.length, acc + OptionToSeq(t), m, ks);
      }
    }
  }

  /** The kinds the first seven entries can produce. */
  const EarlyKinds: set<TokenKind> := {PlusEquals, MinusEquals, EqualsEquals, BangEquals, Or}

  /** A run of the table as written that ends normally has produced only
      `+=`, `-=`, `==`, `!=`, OR tokens and the end marker: no number,
      identifier, bracket or single-character operator is ever produced. */
  lemma AsWrittenKinds(s: string)
    ensures Tokenize(MatchToken, s).Lexed? ==>
      var ts := Tokenize(MatchToken, s).tokens;
      forall k :: 0 <= k < |ts| ==> ts[k].kind in EarlyKinds + {Eof}
  {
    forall t: string, p: nat | p <= |t|
      ensures FirstMatch(MatchToken, t, p).Some? ==> FirstMatch(MatchToken, t, p).value.rule <= 6
    {
      LaterRulesUnreachable(t, p);
    }
    TableShapes();
    assert forall j :: 0 <= j < |MatchToken| && j <= 6 ==> HandlerKindIn(MatchToken[j].handler, EarlyKinds);
    KindsFrom(MatchToken, s, 0, [], 6, EarlyKinds);
    assert LexFrom(MatchToken, s, 0, []).Lexed? ==>
      var ts := LexFrom(MatchToken, s, 0, []).tokens;
      forall k :: 0 <= k < |ts| ==> ts[k].kind in EarlyKinds + {Eof};
    assert Tokenize(MatchToken, s) == LexFrom(MatchToken, s, 0, []);
  }

  /** A character that starts none of the first six patterns nor a bar. */
  predicate StartsNoEarlyRule(c: char) {
    c != '/' && c != '+' && c != '-' && c != '=' && c != '!' && c != '|' && !IsWhiteSpace(c)
  }

  /** At such a character entry 6 wins with an empty match. */
  lemma EmptyOrWins(rules: seq<Rule>, s: string, pos: nat)
    requires EarlyRules(rules) && BarOrEmptySeventh(rules)
    requires pos < |s| && StartsNoEarlyRule(s[pos])
    ensures FirstMatch(rules, s, pos) == Some(Winner(6, 0))
  {
    assert Run(s, pos, WhiteSpace) == 0;
    forall j | 0 <= j < 6
      ensures MatchLength(rules[j].pattern, s, pos).None?
    {
      if j >= 2 {
        LiteralMismatch(rules[j].pattern.text, s, pos);
      }
    }
    PassOver(rules, s, pos, 0, 6);
    assert MatchLength(rules[6].pattern, s, pos) == Some(0);
  }

  /** ... so the source's loop repeats that step forever: the cursor never
      moves past a letter, a digit, a parenthesis, `;`, `*` and so on. */
  lemma AsWrittenDiverges(s: string, pos: nat, acc: seq<Token>)
    requires pos < |s| && StartsNoEarlyRule(s[pos])
    ensures LexFrom(MatchToken, s, pos, acc) == Diverges(pos)
  {
    TableShapes();
    EmptyOrWins(MatchToken, s, pos);
    LexTurn(MatchToken, s, pos, acc);
  }

  /** `let x = 5;` never finishes lexing. */
  lemma AsWrittenDivergesOnDeclaration()
    ensures Tokenize(MatchToken, "let x = 5;") == Diverges(0)
  {
    AsWrittenDiverges("let x = 5;", 0, []);
  }

  // ---------------------------------------------------------------------
  // Any table: the error report, the end marker, the matched segments.
  // ---------------------------------------------------------------------

  /** The error names a cursor at or after the start, the character there,
      and no rule matches the remaining text at that cursor. */
  lemma {:induction false} LexErrorReport(rules: seq<Rule>, s: string, pos: nat, acc: seq<Token>)
    requires pos <= |s|
    ensures LexFrom(rules, s, pos, acc).LexError? ==>
      var e := LexFrom(rules, s, pos, acc);
      && pos <= e.position < |s| && e.ch == s[e.position]
      && forall j :: 0 <= j < |rules| ==> MatchLength(rules[j].pattern, s, e.position).None?
    decreases |s| - pos
  {
    if pos < |s| {
      LexTurn(rules, s, pos, acc);
      match FirstMatch(rules, s, pos)
      case None => FirstMatchIsFirst(rules, s, pos, 0);
      case Some(w) =>
        if w.length > 0 {
          LexErrorReport(rules, s, pos + w.length,
            acc + OptionToSeq(Emitted(rules[w.rule].handler, s[pos..pos + w.length])));
        }
    }
  }

  /** No rule of the table has `Default(Eof)` as its handler. */
  predicate NoEofHandler(rules: seq<Rule>) {
    forall j :: 0 <= j < |rules| ==> rules[j].handler != Default(Eof)
  }

  /** A handler other than `defaultHandler(EOF)` pushes no EOF token. */
  lemma NoEofPushed(acc: seq<Token>, h: TokenHandler, text: string)
    requires h != Default(Eof)
    requires forall k :: 0 <= k < |acc| ==> acc[k].kind != Eof
    ensures forall k :: 0 <= k < |acc + OptionToSeq(Emitted(h, text))| ==> (acc + OptionToSeq(Emitted(h, text)))[k].kind != Eof
  {
  }

  lemma {:induction false} OneEofFrom(rules: seq<Rule>, s: string, pos: nat, acc: seq<Token>)
    requires pos <= |s| && NoEofHandler(rules)
    requires forall k :: 0 <= k < |acc| ==> acc[k].kind != Eof
    ensures LexFrom(rules, s, pos, acc).Lexed? ==>
      var ts := LexFrom(rules, s, pos, acc).tokens;
      && |ts| > |acc|
      && ts[..|acc|] == acc
      && ts[|ts| - 1] == EofToken
      && forall k :: 0 <= k < |ts| - 1 ==> ts[k].kind != Eof
    decreases |s| - pos
  {
    if pos == |s| {
      assert LexFrom(rules, s, pos, acc) == Lexed(acc + [EofToken]);
    } else {
      LexTurn(rules, s, pos, acc);
      if FirstMatch(rules, s, pos).Some? && FirstMatch(rules, s, pos).value.length > 0 {
        var w := FirstMatch(rules, s, pos).value;
        var t := Emitted(rules[w.rule].handler, s[pos..pos + w.length]);
        NoEofPushed(acc, rules[w.rule].handler, s[pos..pos + w.length]);
        OneEofFrom(rules, s, pos + w.length, acc + OptionToSeq(t));
      } else {
        assert !LexFrom(rules, s, pos, acc).Lexed?;
      }
    }
  }

  /** A normal run keeps the tokens already pushed, then appends tokens none
      of which is an end marker, then exactly one end marker `("\0")`, last. */
  lemma OneEof(rules: seq<Rule>, s: string)
    requires NoEofHandler(rules)
    ensures Tokenize(rules, s).Lexed? ==>
      var ts := Tokenize(rules, s).tokens;
      && |ts| >= 1 && ts[|ts| - 1] == EofToken
      && forall k :: 0 <= k < |ts| - 1 ==> ts[k].kind != Eof
  {
    OneEofFrom(rules, s, 0, []);
  }

  /** Both tables satisfy it. */
  lemma TablesHaveNoEofHandler()
    ensures NoEofHandler(MatchToken) && NoEofHandler(IntendedMatchToken)
  {
  }

  /** The texts matched by a run from `pos`, one per turn, as long as the run
      goes on. */
  function Segments(rules: seq<Rule>, s: string, pos: nat): seq<string>
    requires pos <= |s|
    decreases |s| - pos
  {
    if pos == |s| then []
    else match FirstMatch(rules, s, pos)
      case None => []
      case Some(w) =>
        if w.length == 0 then [] else [s[pos..pos + w.length]] + Segments(rules, s, pos + w.length)
  }

  function Concat(ss: seq<string>): string {
    if ss == [] then [] else ss[0] + Concat(ss[1..])
  }

  predicate AllNonEmpty(ss: seq<string>) {
    forall k :: 0 <= k < |ss| ==> ss[k] != []
  }

  /** One more non-empty piece in front of a cover of the rest. */
  lemma CoverStep(x: string, rest: seq<string>)
    requires x != [] && AllNonEmpty(rest)
    ensures Concat([x] + rest) == x + Concat(rest)
    ensures AllNonEmpty([x] + rest)
  {
    assert ([x] + rest)[1..] == rest;
    assert forall k :: 0 < k < |[x] + rest| ==> ([x] + rest)[k] == rest[k - 1];
  }

  /** A turn whose winner matched `w.length > 0` characters contributes
      that text as the next piece. */
  lemma SegmentsStep(rules: seq<Rule>, s: string, pos: nat, w: Winner)
    requires pos < |s| && FirstMatch(rules, s, pos) == Some(w) && w.length > 0
    ensures pos + w.length <= |s|
    ensures Segments(rules, s, pos) == [s[pos..pos + w.length]] + Segments(rules, s, pos + w.length)
  {
  }

  /** A turn that consumed `w.length > 0` characters extends a cover of the
      rest of the text to a cover from `pos`. */
  lemma CoverTurn(rules: seq<Rule>, s: string, pos: nat, w: Winner)
    requires pos < |s| && FirstMatch(rules, s, pos) == Some(w) && w.length > 0
    requires pos + w.length <= |s|
    requires Concat(Segments(rules, s, pos + w.length)) == s[pos + w.length..]
    requires AllNonEmpty(Segments(rules, s, pos + w.length))
    ensures Concat(Segments(rules, s, pos)) == s[pos..] && AllNonEmpty(Segments(rules, s, pos))
  {
    SegmentsStep(rules, s, pos, w);
    CoverStep(s[pos..pos + w.length], Segments(rules, s, pos + w.length));
    assert s[pos..] == s[pos..pos + w.length] + s[pos + w.length..];
  }

  /** On a normal run the matched texts are non-empty and, joined, give back
      the text from the cursor on: nothing is dropped and nothing is read
      twice, and the cursor ends at the end of the text. */
  lemma {:induction false} SegmentsCoverInput(rules: seq<Rule>, s: string, pos: nat, acc: seq<Token>)
    requires pos <= |s|
    ensures LexFrom(rules, s, pos, acc).Lexed? ==>
      && Concat(Segments(rules, s, pos)) == s[pos..]
      && AllNonEmpty(Segments(rules, s, pos))
    decreases |s| - pos
  {
    if pos == |s| {
      assert Segments(rules, s, pos) == [];
    } else {
      assert LexFrom(rules, s, pos, acc) == TurnFrom(rules, s, pos, acc);
      match FirstMatch(rules, s, pos)
      case None =>
      case Some(w) =>
        if w.length > 0 {
          var t := Emitted(rules[w.rule].handler, s[pos..pos + w.length]);
          LexStep(rules, s, pos, acc, w, t);
          SegmentsCoverInput(rules, s, pos + w.length, acc + OptionToSeq(t));
          if LexFrom(rules, s, pos, acc).Lexed? {
            CoverTurn(rules, s, pos, w);
          }
        }
    }
  }

  // ---------------------------------------------------------------------
  // Skipped text and two-character operators (both tables).
  // ---------------------------------------------------------------------

  /** A `//` comment runs to the next line terminator or the end and is
      consumed without a token. */
  lemma CommentSkipped(rules: seq<Rule>, s: string, pos: nat, acc: seq<Token>)
    requires |rules| >= 1 && rules[0] == Rule(LineComment, Skip)
    requires pos + 2 <= |s| && s[pos] == '/' && s[pos + 1] == '/'
    ensures var n := 2 + Run(s, pos + 2, LineContent);
      && pos + n <= |s|
      && (pos + n < |s| ==> IsLineTerminator(s[pos + n]))
      && LexFrom(rules, s, pos, acc) == LexFrom(rules, s, pos + n, acc)
  {
    var n := 2 + Run(s, pos + 2, LineContent);
    assert MatchLength(LineComment, s, pos) == Some(n);
    assert FirstMatch(rules, s, pos) == Some(Winner(0, n));
    LexTurn(rules, s, pos, acc);
    assert acc + OptionToSeq(Emitted(Skip, s[pos..pos + n])) == acc;
    RunIsLongest(s, pos + 2, LineContent);
  }

  /** A run of white space is consumed whole without a token. */
  lemma WhiteSpaceSkipped(rules: seq<Rule>, s: string, pos: nat, acc: seq<Token>)
    requires |rules| >= 2 && rules[0] == Rule(LineComment, Skip) && rules[1] == Rule(WhiteSpaceRun, Skip)
    requires pos < |s| && IsWhiteSpace(s[pos])
    ensures var n := Run(s, pos, WhiteSpace);
      && 0 < n && pos + n <= |s|
      && (pos + n < |s| ==> !IsWhiteSpace(s[pos + n]))
      && LexFrom(rules, s, pos, acc) == LexFrom(rules, s, pos + n, acc)
  {
    var n := Run(s, pos, WhiteSpace);
    assert n > 0;
    assert MatchLength(LineComment, s, pos) == None;
    assert MatchLength(WhiteSpaceRun, s, pos) == Some(n);
    assert FirstMatchFrom(rules, s, pos, 1) == Some(Winner(1, n));
    assert FirstMatch(rules, s, pos) == Some(Winner(1, n));
    LexTurn(rules, s, pos, acc);
    assert acc + OptionToSeq(Emitted(Skip, s[pos..pos + n])) == acc;
    RunIsLongest(s, pos, WhiteSpace);
  }

  /** The four two-character operators. */
  predicate IsTwoCharOperator(k: TokenKind) {
    k == PlusEquals || k == MinusEquals || k == EqualsEquals || k == BangEquals
  }

  /** `+=`, `-=`, `==` and `!=` are listed before `+`, `-` and `=`, so each
      lexes as one two-character token. */
  lemma TwoCharOperatorWins(rules: seq<Rule>, s: string, pos: nat, acc: seq<Token>, k: TokenKind)
    requires EarlyRules(rules)
    requires IsTwoCharOperator(k)
    requires pos + 2 <= |s| && s[pos..pos + 2] == Spelling(k)
    ensures LexFrom(rules, s, pos, acc) == LexFrom(rules, s, pos + 2, acc + [Token(k, Some(Spelling(k)))])
  {
    assert s[pos] == s[pos..pos + 2][0] == Spelling(k)[0];
    var i := if k == PlusEquals then 2 else if k == MinusEquals then 3 else if k == EqualsEquals then 4 else 5;
    assert rules[i] == Rule(Literal(Spelling(k)), Default(k));
    assert Run(s, pos, WhiteSpace) == 0;
    forall j | 0 <= j < i
      ensures MatchLength(rules[j].pattern, s, pos).None?
    {
      if j >= 2 {
        LiteralMismatch(rules[j].pattern.text, s, pos);
      }
    }
    PassOver(rules, s, pos, 0, i);
    assert MatchLength(rules[i].pattern, s, pos) == Some(2);
    assert FirstMatch(rules, s, pos) == Some(Winner(i, 2));
    LexTurn(rules, s, pos, acc);
  }

  // ---------------------------------------------------------------------
  // The table as evidently intended.
  // ---------------------------------------------------------------------

  /** Every pattern of the table matches at least one character when it
      matches at all. */
  predicate NonEmptyPatterns(rules: seq<Rule>) {
    forall j :: 0 <= j < |rules| ==>
      rules[j].pattern != BarOrEmpty && (rules[j].pattern.Literal? ==> rules[j].pattern.text != [])
  }

  lemma NonEmptyMatch(p: Pattern, s: string, pos: nat)
    requires pos <= |s|
    requires p != BarOrEmpty && (p.Literal? ==> p.text != [])
    ensures MatchLength(p, s, pos).Some? ==> MatchLength(p, s, pos).value > 0
  {
  }

  /** A table of such patterns moves the cursor forward on every turn, so a
      run ends, with the tokens or with the error. */
  lemma {:induction false} NeverDivergesFrom(rules: seq<Rule>, s: string, pos: nat, acc: seq<Token>)
    requires pos <= |s| && NonEmptyPatterns(rules)
    ensures !LexFrom(rules, s, pos, acc).Diverges?
    decreases |s| - pos
  {
    if pos < |s| {
      LexTurn(rules, s, pos, acc);
      if FirstMatch(rules, s, pos).Some? {
        var w := FirstMatch(rules, s, pos).value;
        FirstMatchIsFirst(rules, s, pos, 0);
        NonEmptyMatch(rules[w.rule].pattern, s, pos);
        NeverDivergesFrom(rules, s, pos + w.length,
          acc + OptionToSeq(Emitted(rules[w.rule].handler, s[pos..pos + w.length])));
      }
    }
  }

  /** With entry 6 matching `||` only, lexing always ends. */
  lemma IntendedNeverDiverges(s: string)
    ensures !Tokenize(IntendedMatchToken, s).Diverges?
  {
    assert NonEmptyPatterns(IntendedMatchToken);
    NeverDivergesFrom(IntendedMatchToken, s, 0, []);
  }
}
